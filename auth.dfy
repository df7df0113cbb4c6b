/**
 * The simulated session of src/providers/auth-provider.tsx: three flags
 * mirrored in the browser's key-value storage, the load effect that reads
 * them back, and the routing decision taken on every render. Storage is a
 * `map<string, string>` that the session owns; the router calls are the
 * returned redirect target.
 */
module Auth {
  import opened Wrappers

  const AuthStorageKey: string := "roozberooz_isAuthenticated"
  const ProfileSetupCompleteKey: string := "roozberooz_profileSetupComplete"
  const UserFirstNameKey: string := "roozberooz_userFirstName"
  const UserLastNameKey: string := "roozberooz_userLastName"

  const AuthPages: seq<string> := ["/", "/otp"]
  const ProfileSetupPage: string := "/profile-setup"
  const HabitsPage: string := "/my-habits"
  const WelcomePage: string := "/"

  /** The keys `logout` removes. */
  const SessionKeys: set<string> := {AuthStorageKey, ProfileSetupCompleteKey, UserFirstNameKey, UserLastNameKey}

  /** The pages a visitor may see before the profile is complete. */
  predicate IsEntryPage(path: string) {
    path in AuthPages || path == ProfileSetupPage
  }

  /**
   * The redirect effect: the page `router.replace` is sent to, or None when
   * the current page may stay.
   */
  function Redirect(isLoading: bool, mounted: bool, isAuthenticated: bool,
                    profileComplete: bool, path: string): (r: Option<string>)
    ensures isLoading || !mounted ==> r == None
    ensures r.Some? ==> r.value != path
    ensures !isLoading && mounted && isAuthenticated && !profileComplete ==>
      (r.Some? <==> path != ProfileSetupPage) && (r.Some? ==> r.value == ProfileSetupPage)
    ensures !isLoading && mounted && isAuthenticated && profileComplete ==>
      (r.Some? <==> IsEntryPage(path)) && (r.Some? ==> r.value == HabitsPage)
    ensures !isLoading && mounted && !isAuthenticated ==>
      (r.Some? <==> !IsEntryPage(path)) && (r.Some? ==> r.value == WelcomePage)
  {
    if isLoading || !mounted then None
    else if isAuthenticated then
      if !profileComplete && path != ProfileSetupPage then Some(ProfileSetupPage)
      else if profileComplete && (path in AuthPages || path == ProfileSetupPage) then Some(HabitsPage)
      else None
    else if !(path in AuthPages) && path != ProfileSetupPage then Some(WelcomePage)
    else None
  }

  /** A redirect lands on a page that, with the same flags, stays put. */
  lemma RedirectTargetIsFixpoint(isAuthenticated: bool, profileComplete: bool, path: string)
    requires Redirect(false, true, isAuthenticated, profileComplete, path).Some?
    ensures Redirect(false, true, isAuthenticated, profileComplete,
                     Redirect(false, true, isAuthenticated, profileComplete, path).value).None?
  {
    assert HabitsPage != AuthPages[0] && HabitsPage != AuthPages[1];
  }

  /** `localStorage.getItem(key) === 'true'`. */
  predicate StoredTrue(storage: map<string, string>, key: string) {
    key in storage && storage[key] == "true"
  }

  /** `localStorage.getItem(key)`, with null as None. */
  function Lookup(storage: map<string, string>, key: string): (r: Option<string>)
    ensures r.Some? <==> key in storage
    ensures r.Some? ==> r.value == storage[key]
  {
    if key in storage then Some(storage[key]) else None
  }

  class AuthSession {
    var storage: map<string, string>
    var isAuthenticated: bool
    var firstName: Option<string>
    var isProfileSetupComplete: bool
    var isLoading: bool
    var mounted: bool

    /** The flags agree with what reading the storage back would give. */
    predicate Synced()
      reads this
    {
      && isAuthenticated == StoredTrue(storage, AuthStorageKey)
      && isProfileSetupComplete == StoredTrue(storage, ProfileSetupCompleteKey)
      && firstName == Lookup(storage, UserFirstNameKey)
    }

    /** The initial state, before the load effect; `stored` is what the browser holds. */
    constructor (stored: map<string, string>)
      ensures storage == stored
      ensures !isAuthenticated && firstName.None? && !isProfileSetupComplete
      ensures isLoading && !mounted
    {
      storage := stored;
      isAuthenticated := false;
      firstName := None;
      isProfileSetupComplete := false;
      isLoading := true;
      mounted := false;
    }

    /** The load effect (storage errors are not modelled). */
    method Mount()
      modifies this
      ensures mounted && !isLoading
      ensures storage == old(storage)
      ensures Synced()
    {
      mounted := true;
      isAuthenticated := StoredTrue(storage, AuthStorageKey);
      isProfileSetupComplete := StoredTrue(storage, ProfileSetupCompleteKey);
      firstName := Lookup(storage, UserFirstNameKey);
      isLoading := false;
    }

    /** Where the redirect effect would send a visitor of `path` now. */
    function PendingRedirect(path: string): (r: Option<string>)
      reads this
      ensures r.Some? ==> r.value != path
      ensures isLoading || !mounted ==> r.None?
    {
      Redirect(isLoading, mounted, isAuthenticated, isProfileSetupComplete, path)
    }

    method Login()
      modifies this
      ensures storage == old(storage)[AuthStorageKey := "true"]
      ensures isAuthenticated
      ensures firstName == old(firstName) && isProfileSetupComplete == old(isProfileSetupComplete)
      ensures isLoading == old(isLoading) && mounted == old(mounted)
      ensures old(Synced()) ==> Synced()
    {
      storage := storage[AuthStorageKey := "true"];
      isAuthenticated := true;
    }

    method Logout()
      modifies this
      ensures storage == old(storage) - SessionKeys
      ensures !isAuthenticated && !isProfileSetupComplete && firstName.None?
      ensures isLoading == old(isLoading) && mounted == old(mounted)
      ensures Synced()
    {
      storage := storage - {AuthStorageKey};
      storage := storage - {ProfileSetupCompleteKey};
      storage := storage - {UserFirstNameKey};
      storage := storage - {UserLastNameKey};
      isAuthenticated := false;
      isProfileSetupComplete := false;
      firstName := None;
    }

    /** `saveProfile`; the age is accepted and not stored, as in the source. */
    method SaveProfile(first: string, last: string, age: string)
      modifies this
      ensures storage == old(storage)[UserFirstNameKey := first][UserLastNameKey := last][ProfileSetupCompleteKey := "true"]
      ensures firstName == Some(first) && isProfileSetupComplete
      ensures isAuthenticated == old(isAuthenticated)
      ensures isLoading == old(isLoading) && mounted == old(mounted)
      ensures old(Synced()) ==> Synced()
    {
      storage := storage[UserFirstNameKey := first];
      storage := storage[UserLastNameKey := last];
      storage := storage[ProfileSetupCompleteKey := "true"];
      firstName := Some(first);
      isProfileSetupComplete := true;
    }
  }

  /** After login, a reload reads the session back as authenticated. */
  lemma LoginSurvivesReload(storage: map<string, string>)
    ensures StoredTrue(storage[AuthStorageKey := "true"], AuthStorageKey)
  {
  }

  /** After logout, a reload finds no session, no completed profile and no name. */
  lemma LogoutSurvivesReload(storage: map<string, string>)
    ensures !StoredTrue(storage - SessionKeys, AuthStorageKey)
    ensures !StoredTrue(storage - SessionKeys, ProfileSetupCompleteKey)
    ensures Lookup(storage - SessionKeys, UserFirstNameKey).None?
    ensures forall k :: k in storage && k !in SessionKeys ==> k in storage - SessionKeys && (storage - SessionKeys)[k] == storage[k]
  {
  }

  /** A visitor who logs in on the code page and has no profile yet is sent to profile setup. */
  method LoginScenario()
  {
    var session := new AuthSession(map[]);
    session.Mount();
    assert session.PendingRedirect("/otp").None?;
    session.Login();
    assert session.PendingRedirect("/otp") == Some(ProfileSetupPage);
    session.SaveProfile("Sara", "Ahmadi", "30");
    assert session.PendingRedirect(ProfileSetupPage) == Some(HabitsPage);
    assert session.PendingRedirect(HabitsPage).None?;
    session.Logout();
    assert session.PendingRedirect(HabitsPage) == Some(WelcomePage);
  }
}
