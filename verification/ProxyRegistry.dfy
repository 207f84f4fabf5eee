/** Users of a proxy, and the relinking of viewers to them when a proxy is loaded. */
module ProxyRegistry {
  class ProxyUser {
    const Username: string
    const Password: string

    constructor (username: string, password: string)
      ensures Username == username && Password == password
    {
      Username, Password := username, password;
    }
  }

  class Viewer {
    var proxy: Proxy?
    var User: ProxyUser?

    constructor (user: ProxyUser?)
      ensures User == user && proxy == null
    {
      proxy, User := null, user;
    }
  }

  function UserKey(user: string, pass: string): string {
    user + ":" + pass
  }

  datatype Lookup = NotFound | Found(user: ProxyUser, passwordBlank: bool)

  /** GetProxyUser without cloning: the exact key first, then the user's entry without a password. */
  function GetProxyUser(users: map<string, ProxyUser>, username: string, password: string): (r: Lookup)
    ensures UserKey(username, password) in users ==> r == Found(users[UserKey(username, password)], false)
    ensures r.Found? && r.passwordBlank ==>
              && UserKey(username, password) !in users && UserKey(username, "") in users
              && r.user == users[UserKey(username, "")] && r.user.Password == ""
    ensures r.NotFound? ==> UserKey(username, "") in users ==> users[UserKey(username, "")].Password != ""
  {
    if UserKey(username, password) in users then Found(users[UserKey(username, password)], false)
    else if UserKey(username, "") in users && users[UserKey(username, "")].Password == "" then
      Found(users[UserKey(username, "")], true)
    else NotFound
  }

  /** `user` stands in `users` for what was asked: under its own key, or under the key without a
      password as an entry that has none. */
  predicate StandsFor(users: map<string, ProxyUser>, asked: ProxyUser, user: ProxyUser) {
    || (UserKey(asked.Username, asked.Password) in users && users[UserKey(asked.Username, asked.Password)] == user)
    || (UserKey(asked.Username, "") in users && users[UserKey(asked.Username, "")] == user && user.Password == "")
  }

  /** If `users` has an entry under the very key of `asked`, that is what was found. */
  predicate Exact(users: map<string, ProxyUser>, asked: ProxyUser?, user: ProxyUser?) {
    asked != null && UserKey(asked.Username, asked.Password) in users ==>
      user == users[UserKey(asked.Username, asked.Password)]
  }

  /** Every entry of `users` is still there. */
  predicate Extends(larger: map<string, ProxyUser>, users: map<string, ProxyUser>) {
    forall k :: k in users ==> k in larger && larger[k] == users[k]
  }

  lemma StandsForExtends(users: map<string, ProxyUser>, larger: map<string, ProxyUser>,
        asked: ProxyUser, user: ProxyUser)
    requires Extends(larger, users) && StandsFor(users, asked, user)
    ensures StandsFor(larger, asked, user)
  {
  }

  class Proxy {
    var Users: map<string, ProxyUser>
    const Viewers: map<string, Viewer>

    constructor (users: map<string, ProxyUser>, viewers: map<string, Viewer>)
      ensures Users == users && Viewers == viewers
    {
      Users, Viewers := users, viewers;
    }

    method AddProxyUser(user: ProxyUser) returns (key: string)
      modifies this
      ensures key == UserKey(user.Username, user.Password) && Users == old(Users)[key := user]
    {
      key := UserKey(user.Username, user.Password);
      Users := Users[key := user];
    }

    /** The body of the loop for one viewer: an entry under the user's own key wins over the entry without
        a password, and only if there is neither is the user stored. */
    method Relink(viewer: Viewer)
      modifies this, viewer
      ensures viewer.proxy == this && Extends(Users, old(Users))
      ensures viewer.User == null <==> old(viewer.User) == null
      ensures viewer.User != null ==> StandsFor(Users, old(viewer.User), viewer.User)
      ensures viewer.User != null ==>
                var exact := UserKey(old(viewer.User).Username, old(viewer.User).Password);
                var blank := UserKey(old(viewer.User).Username, "");
                if exact in old(Users) then viewer.User == old(Users)[exact] && Users == old(Users)
                else if blank in old(Users) && old(Users)[blank].Password == "" then
                  viewer.User == old(Users)[blank] && Users == old(Users)
                else viewer.User == old(viewer.User) && Users == old(Users)[exact := viewer.User]
      ensures forall k :: k in Users && k !in old(Users) ==>
                old(viewer.User) != null && k == UserKey(old(viewer.User).Username, old(viewer.User).Password)
                && Users[k] == old(viewer.User)
    {
      viewer.proxy := this;
      if viewer.User != null {
        match GetProxyUser(Users, viewer.User.Username, viewer.User.Password) {
          case Found(user, _) => viewer.User := user;
          case NotFound => var _ := AddProxyUser(viewer.User);
        }
      }
    }

    /** Where a viewer that started with `asked` has to end up. */
    ghost predicate Linked(viewer: Viewer, asked: ProxyUser?)
      reads this, viewer
    {
      && viewer.proxy == this
      && (viewer.User == null <==> asked == null)
      && (viewer.User != null ==> StandsFor(Users, asked, viewer.User))
    }

    /** Initialize visits the viewers in an order of the runtime's choice. Whatever it is, every viewer
        ends up pointing to this proxy and, if it had a user, to a stored one that stands for it, which
        is the entry under its own key if there was one before; no earlier entry changes; and every new entry is the user of one of the viewers, under its own key. */
    method Initialize()
      requires forall j, k :: j in Viewers && k in Viewers && j != k ==> Viewers[j] != Viewers[k]
      modifies this, Viewers.Values
      ensures forall k :: k in Viewers ==> Linked(Viewers[k], old(Viewers[k].User))
      ensures forall k :: k in Viewers ==> Exact(old(Users), old(Viewers[k].User), Viewers[k].User)
      ensures Extends(Users, old(Users))
      ensures forall u :: u in Users && u !in old(Users) ==>
                exists k :: k in Viewers && old(Viewers[k].User) == Users[u]
                            && u == UserKey(Users[u].Username, Users[u].Password)
    {
      var rest := Viewers.Keys;
      while rest != {}
        invariant rest <= Viewers.Keys && Extends(Users, old(Users))
        invariant forall k :: k in Viewers && k !in rest ==> Linked(Viewers[k], old(Viewers[k].User))
        invariant forall k :: k in rest ==> Viewers[k].User == old(Viewers[k].User)
        invariant forall k :: k in Viewers && k !in rest ==>
                    Exact(old(Users), old(Viewers[k].User), Viewers[k].User)
        invariant forall u :: u in Users && u !in old(Users) ==>
                    exists k :: k in Viewers && old(Viewers[k].User) == Users[u]
                                && u == UserKey(Users[u].Username, Users[u].Password)
        decreases rest
      {
        var key :| key in rest;
        rest := rest - {key};
        ghost var before := Users;
        Relink(Viewers[key]);
        forall k | k in Viewers && k !in rest
          ensures Linked(Viewers[k], old(Viewers[k].User))
        {
          if k != key && Viewers[k].User != null {
            StandsForExtends(before, Users, old(Viewers[k].User), Viewers[k].User);
          }
        }
      }
    }
  }
}
