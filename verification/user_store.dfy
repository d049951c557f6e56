/** The user and theme store (src/stores/userStore.ts): which of the two users is active,
    the colour theme, and the fixed list of user profiles. The `dark` class that the theme
    actions toggle on the document root is the ghost flag `darkClass`. */
module UserStore {
  import opened Common
  import opened Types

  /** The two fixed profiles, in order ('João' first). */
  function UsersData(): (r: seq<UserProfile>)
    ensures |r| == 2 && r[0].name == Joao && r[1].name == Myrrena
  {
    [ UserProfile(Joao, "joao@lifeos.com",
        "https://api.dicebear.com/7.x/avataaars/svg?seed=Jo\U{00E3}o&backgroundColor=b6e3f4", "#3b82f6"),
      UserProfile(Myrrena, "myrrena@lifeos.com",
        "https://api.dicebear.com/7.x/avataaars/svg?seed=Myrrena&backgroundColor=ffd5dc", "#ec4899") ]
  }

  /** The other theme: what `toggleTheme` switches to. */
  function Toggled(t: Theme): (r: Theme)
    ensures r != t
  {
    if t == Light then Dark else Light
  }

  /** Toggling twice restores the theme. */
  lemma ToggledTwice(t: Theme)
    ensures Toggled(Toggled(t)) == t
  {
  }

  /** `users.findIndex(u => u.name === name)`, with |users| standing for "not found": the
      position of the first profile carrying that name. */
  function FindIndex(users: seq<UserProfile>, name: User): (i: nat)
    ensures i <= |users|
    ensures forall j :: 0 <= j < i ==> users[j].name != name
    ensures i < |users| ==> users[i].name == name
  {
    if users == [] then 0
    else if users[0].name == name then 0
    else 1 + FindIndex(users[1..], name)
  }

  /** `users.find(u => u.name === name) || usersData[0]`. */
  function ProfileOf(users: seq<UserProfile>, name: User): (p: UserProfile)
    ensures (exists q :: q in users && q.name == name) ==>
              exists i :: 0 <= i < |users| && users[i] == p && p.name == name &&
                          forall k :: 0 <= k < i ==> users[k].name != name
    ensures (forall q :: q in users ==> q.name != name) ==> p == UsersData()[0]
  {
    var i := FindIndex(users, name);
    if i < |users| then users[i] else UsersData()[0]
  }

  /** With the fixed profile list, every user's profile is found by name, so the
      fallback is never taken. */
  lemma ProfileOfUsersData(name: User)
    ensures ProfileOf(UsersData(), name).name == name
    ensures ProfileOf(UsersData(), name) == UsersData()[if name == Joao then 0 else 1]
  {
    var users := UsersData();
    assert users[0].name == Joao && users[1].name == Myrrena;
    if name == Joao {
      assert FindIndex(users, name) == 0;
    } else {
      assert FindIndex(users, name) == 1;
    }
  }

  class UserStore {
    var currentUser: User
    var theme: Theme
    var users: seq<UserProfile>
    /** Whether the document root carries the `dark` class. */
    ghost var darkClass: bool

    /** The creator's state (lines 32-34); the document class is as the page left it. */
    constructor (ghost documentDark: bool)
      ensures currentUser == Joao && theme == Light && users == UsersData()
      ensures darkClass == documentDark
    {
      currentUser := Joao;
      theme := Light;
      users := UsersData();
      darkClass := documentDark;
    }

    method SetUser(user: User)
      modifies this`currentUser
      ensures currentUser == user
    {
      currentUser := user;
    }

    /** Switch light and dark, and put the document class in step with the new theme. */
    method ToggleTheme()
      modifies this`theme, this`darkClass
      ensures theme == Toggled(old(theme))
      ensures darkClass <==> theme == Dark
    {
      var newTheme := if theme == Light then Dark else Light;
      theme := newTheme;
      darkClass := newTheme == Dark;
    }

    method SetTheme(t: Theme)
      modifies this`theme, this`darkClass
      ensures theme == t
      ensures darkClass <==> theme == Dark
    {
      theme := t;
      darkClass := t == Dark;
    }

    /** `getCurrentUserProfile`: the first profile named like the current user, or the
        first fixed profile when there is none. */
    function CurrentUserProfile(): (p: UserProfile)
      reads this
      ensures (exists q :: q in users && q.name == currentUser) ==>
                exists i :: 0 <= i < |users| && users[i] == p && p.name == currentUser &&
                            forall k :: 0 <= k < i ==> users[k].name != currentUser
      ensures (forall q :: q in users ==> q.name != currentUser) ==> p == UsersData()[0]
    {
      ProfileOf(users, currentUser)
    }
  }

  /** Toggling twice restores the theme and leaves the document class in step with it;
      setting the same theme twice is setting it once; switching user keeps the theme. */
  method ThemeScenario(store: UserStore, user: User)
      returns (start: Theme, afterToggles: Theme, ghost darkAfterToggles: bool, afterOnce: Theme, afterTwice: Theme)
    modifies store
    ensures start == old(store.theme)
    ensures afterToggles == start && (darkAfterToggles <==> start == Dark)
    ensures afterOnce == Dark && afterTwice == afterOnce
    ensures store.theme == Dark && store.darkClass && store.currentUser == user
  {
    start := store.theme;
    store.ToggleTheme();
    store.ToggleTheme();
    afterToggles, darkAfterToggles := store.theme, store.darkClass;
    store.SetTheme(Dark);
    afterOnce := store.theme;
    store.SetTheme(Dark);
    afterTwice := store.theme;
    store.SetUser(user);
  }
}
