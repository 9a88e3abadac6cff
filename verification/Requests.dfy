/** What one changing request does to users, sessions and clients, and where memory and disk or two ways to ignore
    case part. */
module Requests {
  import opened Text
  import opened Accounts

  // ---- what a request does to users, sessions and clients ----

  predicate OtherAdmin(users: seq<User>, i: nat) {
    exists k :: 0 <= k < |users| && k != i && users[k].role == "admin"
  }

  lemma {:induction false} SomeAdminIff(users: seq<User>)
    ensures AdminCount(users) > 0 <==> exists k :: 0 <= k < |users| && users[k].role == "admin"
  {
    if users != [] {
      var init := users[..|users| - 1];
      SomeAdminIff(init);
      if k :| 0 <= k < |init| && init[k].role == "admin" {
        assert users[k].role == "admin";
      }
    }
  }

  lemma LastAdminIff(users: seq<User>, i: nat)
    requires i < |users| && users[i].role == "admin"
    ensures AdminCount(users) <= 1 <==> !OtherAdmin(users, i)
  {
    hide AdminCount;
    var fewer := users[..i] + users[i + 1..];
    AdminCountAt(users, i, []);
    AdminCountJoins([], []);
    OneAdmin(users[i]);
    assert users[..i] + [] + users[i + 1..] == fewer;
    SomeAdminIff(fewer);
    assert forall k :: 0 <= k < |fewer| ==> fewer[k] == users[if k < i then k else k + 1];
    if k :| 0 <= k < |users| && k != i && users[k].role == "admin" {
      assert fewer[if k < i then k else k - 1].role == "admin";
    }
  }

  /** The name has no session any more, and every other session is as it was. */
  ghost predicate OnlyRevoked(before: map<string, Session>, after: map<string, Session>, name: string) {
    && (forall token :: token in after <==> token in before && before[token].user != name)
    && (forall token :: token in after ==> after[token] == before[token])
  }

  lemma RevokedOnly(sessions: map<string, Session>, name: string)
    ensures OnlyRevoked(sessions, Revoked(sessions, Some(name)), name)
  {
  }

  lemma NamesDiffer(key: string -> string, users: seq<User>)
    requires DistinctNames(key, users)
    ensures forall j, k :: 0 <= j < k < |users| ==> users[j].name != users[k].name
  {
  }

  /** DELETE is refused for the only user and for the only administrator. Otherwise the user's sessions end; and
      where the rest is valid and saved, that user is gone, in memory and on disk, nobody is left whose name is
      the same in lower case, and all others stay as they were, in order. */
  lemma DeletedIsGone(env: Env, s: State, username: string, writeWorks: bool, i: nat)
    requires DistinctNames(env.lower, s.cfg.users)
    requires i < |s.cfg.users| && s.cfg.users[i].name == TrimSpace(username)
    ensures var users, t := s.cfg.users, Guarded(env, s, DeleteUser(username), writeWorks);
      var status := Handle(env, s.cfg, DeleteUser(username)).status;
      var rest := s.cfg.(users := users[..i] + users[i + 1..]);
      && status == (if |users| == 1 || (users[i].role == "admin" && !OtherAdmin(users, i)) then 400 else 204)
      && (status == 400 ==> t == s)
      && (status == 204 ==> OnlyRevoked(s.sessions, t.sessions, users[i].name))
      && (status == 204 && ValidConfig(env, rest) && writeWorks ==>
            && t.cfg == t.disk == rest
            && forall u :: u in t.cfg.users ==>
                 env.lower(u.name) != env.lower(users[i].name) && u.name != users[i].name)
      && (status == 204 && !(ValidConfig(env, rest) && writeWorks) ==> t.cfg == s.cfg && t.disk == s.disk)
  {
    hide AdminCount, ValidConfig, TrimSpace, OtherAdmin, DistinctNames, OnlyRevoked;
    var users := s.cfg.users;
    NamesDiffer(env.lower, users);
    RevokedOnly(s.sessions, users[i].name);
    if users[i].role == "admin" {
      LastAdminIff(users, i);
    }
    OthersDiffer(env.lower, users, i);
  }

  lemma OthersDiffer(key: string -> string, users: seq<User>, i: nat)
    requires DistinctNames(key, users) && i < |users|
    ensures forall u :: u in users[..i] + users[i + 1..] ==> key(u.name) != key(users[i].name)
  {
  }

  /** Nor can anyone log in under that name later: as long as no user bears it, no session does. */
  lemma NameWithoutUser(env: Env, run: seq<State>, n: nat, name: string)
    requires IsRun(env, run) && n < |run|
    requires forall u :: u in run[n].cfg.users ==> u.name != name
    ensures forall token :: token in run[n].sessions ==> run[n].sessions[token].user != name
  {
    RunsKeepInv(env, run, n);
    var users := run[n].cfg.users;
    forall i | 0 <= i < |users| ensures users[i].name != name {
      assert users[i] in users;
    }
  }

  /** DELETE for nobody changes nothing. */
  lemma NobodyIsDeleted(env: Env, s: State, username: string, writeWorks: bool)
    requires forall u :: u in s.cfg.users ==> u.name != TrimSpace(username)
    ensures Handle(env, s.cfg, DeleteUser(username)).status == 404
    ensures Guarded(env, s, DeleteUser(username), writeWorks) == s
  {
    hide AdminCount, ValidConfig, TrimSpace;
    forall i | 0 <= i < |s.cfg.users| ensures s.cfg.users[i].name != TrimSpace(username) {
      assert s.cfg.users[i] in s.cfg.users;
    }
  }

  /** POST is refused for a malformed request and for a name that is taken. Otherwise, where the result is valid
      and saved, exactly this user comes to the end of the list. No session ends. */
  lemma PostedIsAppended(env: Env, s: State, username: string, passwordLength: nat, role: string, hash: string,
                         writeWorks: bool)
    ensures var req := PostUser(username, passwordLength, role, hash);
      var t, status := Guarded(env, s, req, writeWorks), Handle(env, s.cfg, req).status;
      var added := User(TrimSpace(username), hash, if TrimSpace(role) == "" then "viewer" else TrimSpace(role));
      var more := s.cfg.(users := s.cfg.users + [added]);
      && status == (if !ValidUsername(added.name) || !(1 <= passwordLength <= 4096)
                       || TrimSpace(role) !in {"", "admin", "viewer"} then 400
                    else if exists u :: u in s.cfg.users && u.name == added.name then 409
                    else 200)
      && t.sessions == s.sessions
      && (if status == 200 && ValidConfig(env, more) && writeWorks then t.cfg == t.disk == more
          else t.cfg == s.cfg && t.disk == s.disk)
  {
    hide AdminCount, ValidConfig, TrimSpace, ValidUsername;
    var name := TrimSpace(username);
    var i := IndexOf(s.cfg.users, name);
    if i < |s.cfg.users| {
      assert s.cfg.users[i] in s.cfg.users;
    }
  }

  /** The user as a PATCH asks for it: each of name, role and password changes exactly if it is given. */
  predicate AsAsked(u: User, v: User, newName: string, passwordLength: nat, role: string, hash: string) {
    && v.name == (if newName == "" then u.name else newName)
    && v.role == (if role == "" then u.role else role)
    && v.hash == (if passwordLength == 0 then u.hash else hash)
  }

  lemma PatchOf(env: Env, cfg: Config, username: string, newUsername: string, passwordLength: nat, role: string,
                hash: string, i: nat)
    requires DistinctNames(env.lower, cfg.users)
    requires i < |cfg.users| && cfg.users[i].name == TrimSpace(username)
    requires ValidUsername(TrimSpace(username)) && (newUsername != "" ==> ValidUsername(TrimSpace(newUsername)))
    requires role in {"", "admin", "viewer"} && passwordLength <= 4096
    ensures var users, newName := cfg.users, TrimSpace(newUsername);
      var h := Patch(env, cfg, username, newUsername, passwordLength, role, hash);
      && h.status == (if users[i].role == "admin" && role == "viewer" && !OtherAdmin(users, i) then 400
                      else if newName != "" && newName != users[i].name
                              && exists u :: u in users && env.fold(u.name) == env.fold(newName) then 409
                      else 200)
      && h.revoked == (if h.status == 200 then Some(users[i].name) else None)
      && (h.status != 200 ==> h.cfg == cfg)
      && (h.status == 200 ==>
            && |h.cfg.users| == |users| && h.cfg == cfg.(users := h.cfg.users)
            && (forall k :: 0 <= k < |users| && k != i ==> h.cfg.users[k] == users[k])
            && AsAsked(users[i], h.cfg.users[i], newName, passwordLength, role, hash))
  {
    hide AdminCount, TrimSpace, OtherAdmin, DistinctNames, ValidUsername, Taken;
    NamesDiffer(env.lower, cfg.users);
    hide IndexOf;
    if cfg.users[i].role == "admin" {
      LastAdminIff(cfg.users, i);
    }
    TakenIff(env.fold, cfg.users, TrimSpace(newUsername));
    hide Changed, AsAsked;
  }

  /** PATCH is refused where it would take the last administrator's role, or take a name that some user bears in
      any case. Otherwise the user's sessions end; and where the result is valid and saved, exactly this user is
      changed, as asked. */
  lemma PatchedIsChanged(env: Env, s: State, username: string, newUsername: string, passwordLength: nat, role: string,
                         hash: string, writeWorks: bool, i: nat)
    requires DistinctNames(env.lower, s.cfg.users)
    requires i < |s.cfg.users| && s.cfg.users[i].name == TrimSpace(username)
    requires ValidUsername(TrimSpace(username)) && (newUsername != "" ==> ValidUsername(TrimSpace(newUsername)))
    requires role in {"", "admin", "viewer"} && passwordLength <= 4096
    ensures var users, newName := s.cfg.users, TrimSpace(newUsername);
      var req := PatchUser(username, newUsername, passwordLength, role, hash);
      var t, status := Guarded(env, s, req, writeWorks), Handle(env, s.cfg, req).status;
      var after := Handle(env, s.cfg, req).cfg;
      && status == (if users[i].role == "admin" && role == "viewer" && !OtherAdmin(users, i) then 400
                    else if newName != "" && newName != users[i].name
                            && exists u :: u in users && env.fold(u.name) == env.fold(newName) then 409
                    else 200)
      && (status != 200 ==> t == s)
      && (status == 200 ==>
            && OnlyRevoked(s.sessions, t.sessions, users[i].name)
            && |after.users| == |users| && after == s.cfg.(users := after.users)
            && (forall k :: 0 <= k < |users| && k != i ==> after.users[k] == users[k])
            && AsAsked(users[i], after.users[i], newName, passwordLength, role, hash)
            && if ValidConfig(env, after) && writeWorks then t.cfg == t.disk == after
               else t.cfg == s.cfg && t.disk == s.disk)
  {
    hide Patch, ValidConfig, TrimSpace, OtherAdmin, DistinctNames, OnlyRevoked, ValidUsername, Revoked, AsAsked;
    PatchOf(env, s.cfg, username, newUsername, passwordLength, role, hash, i);
    RevokedOnly(s.sessions, s.cfg.users[i].name);
    RevokedNobody(s.sessions);
  }

  lemma RevokedNobody(sessions: map<string, Session>)
    ensures Revoked(sessions, None) == sessions
  {
  }

  lemma TakenIff(key: string -> string, users: seq<User>, name: string)
    ensures Taken(key, users, name) <==> exists u :: u in users && key(u.name) == key(name)
  {
    if i :| 0 <= i < |users| && key(users[i].name) == key(name) {
      assert users[i] in users;
    }
  }

  /** PATCH with a malformed request, or for nobody, changes nothing. */
  lemma PatchIsRefused(env: Env, s: State, username: string, newUsername: string, passwordLength: nat, role: string,
                       hash: string, writeWorks: bool)
    requires
      || !ValidUsername(TrimSpace(username)) || (newUsername != "" && !ValidUsername(TrimSpace(newUsername)))
      || role !in {"", "admin", "viewer"} || passwordLength > 4096
      || forall u :: u in s.cfg.users ==> u.name != TrimSpace(username)
    ensures var req := PatchUser(username, newUsername, passwordLength, role, hash);
      Handle(env, s.cfg, req).status in {400, 404} && Guarded(env, s, req, writeWorks) == s
  {
    hide AdminCount, ValidConfig, TrimSpace, ValidUsername;
    var i := IndexOf(s.cfg.users, TrimSpace(username));
    if i < |s.cfg.users| {
      assert s.cfg.users[i] in s.cfg.users;
    }
  }

  /** A saved edit of a client: its name and its profile are those asked for, or none; it is on the whitelist
      exactly as asked, once if it was wanted there; and nothing is changed for any other client. */
  lemma ClientIsEdited(env: Env, s: State, ip: string, name: string, wanted: Option<bool>, profile: string)
    requires TrimSpace(ip) != "" && (TrimSpace(profile) == "" || TrimSpace(profile) in s.cfg.profiles)
    requires ValidConfig(env, Handle(env, s.cfg, EditClient(ip, name, wanted, profile)).cfg)
    ensures var key, t := TrimSpace(ip), Guarded(env, s, EditClient(ip, name, wanted, profile), true);
      && Handle(env, s.cfg, EditClient(ip, name, wanted, profile)).status == 200
      && t.disk == t.cfg && t.sessions == s.sessions && t.cfg.users == s.cfg.users && t.cfg.others == s.cfg.others
      && t.cfg.clientNames - {key} == s.cfg.clientNames - {key}
      && t.cfg.clientProfiles - {key} == s.cfg.clientProfiles - {key}
      && (if TrimSpace(name) == "" then key !in t.cfg.clientNames
          else key in t.cfg.clientNames && t.cfg.clientNames[key] == TrimSpace(name))
      && (if TrimSpace(profile) == "" then key !in t.cfg.clientProfiles
          else key in t.cfg.clientProfiles && t.cfg.clientProfiles[key] == TrimSpace(profile))
      && (wanted.None? ==> t.cfg.whitelist == s.cfg.whitelist)
      && (wanted.Some? ==> multiset(t.cfg.whitelist)[key] == if wanted.value then 1 else 0)
      && forall other :: other != key ==> multiset(t.cfg.whitelist)[other] == multiset(s.cfg.whitelist)[other]
  {
    hide TrimSpace, ValidConfig, Whitelisted, Renamed;
    WhitelistedCounts(s.cfg.whitelist, TrimSpace(ip), wanted);
    RenamedIs(s.cfg.clientNames, TrimSpace(ip), TrimSpace(name));
  }

  lemma RenamedIs(names: map<string, string>, key: string, name: string)
    ensures Renamed(names, key, name) - {key} == names - {key}
    ensures if name == "" then key !in Renamed(names, key, name)
            else key in Renamed(names, key, name) && Renamed(names, key, name)[key] == name
  {
  }

  lemma WhitelistedCounts(list: seq<string>, key: string, wanted: Option<bool>)
    ensures wanted.None? ==> Whitelisted(list, key, wanted) == list
    ensures wanted.Some? ==> multiset(Whitelisted(list, key, wanted))[key] == if wanted.value then 1 else 0
    ensures forall other :: other != key ==> multiset(Whitelisted(list, key, wanted))[other] == multiset(list)[other]
  {
    hide Without;
    WithoutCounts(list, key);
  }

  lemma {:induction false} WithoutCounts(items: seq<string>, item: string)
    ensures multiset(Without(items, item))[item] == 0
    ensures forall other :: other != item ==> multiset(Without(items, item))[other] == multiset(items)[other]
  {
    if items != [] {
      var init, last := items[..|items| - 1], items[|items| - 1];
      WithoutCounts(init, item);
      assert items == init + [last];
    }
  }

  /** A login costs at most one live session, only where there were 1024, and then one that would have expired
      no later than any kept; the new session is the user's and lasts twelve hours. */
  lemma LoginCostsTheOldest(s: State, t: State, user: User, token: string, stamped: int, now: int, lost: string)
    requires LoggedIn(s, t, user, token, stamped, now)
    ensures token in t.sessions && t.sessions[token] == Session(user.name, user.role, stamped + 43_200_000_000_000)
    ensures forall k :: k in t.sessions && k != token ==>
      k in s.sessions && t.sessions[k] == s.sessions[k] && now <= s.sessions[k].expires
    ensures lost in s.sessions && now <= s.sessions[lost].expires && lost !in t.sessions ==>
      && |Unexpired(s.sessions, now)| >= 1024
      && forall k :: k in s.sessions && now <= s.sessions[k].expires && k != lost ==>
           k in t.sessions && s.sessions[lost].expires <= s.sessions[k].expires
  {
    var live := Unexpired(s.sessions, now);
    UnexpiredIsPart(s.sessions, now);
    assert forall k :: k in live <==> k in s.sessions && now <= s.sessions[k].expires;
    var kept :| GivesUpOldest(live, kept)
      && t.sessions == kept[token := Session(user.name, user.role, stamped + SESSION_LIFETIME)];
    hide Unexpired, GivesUpOldest;
  }

  // ---- handlers that edit and then refuse ----

  /** The request would change the client's name. */
  predicate NameDiffers(cfg: Config, ip: string, name: string) {
    if name == "" then ip in cfg.clientNames else ip !in cfg.clientNames || cfg.clientNames[ip] != name
  }

  /** The request would change the whitelist: an entry added goes to its end, and all others of it go. */
  predicate WhitelistDiffers(cfg: Config, ip: string, wanted: Option<bool>) {
    match wanted
    case None => false
    case Some(false) => ip in cfg.whitelist
    case Some(true) =>
      var n := |cfg.whitelist|;
      n == 0 || cfg.whitelist[n - 1] != ip || ip in cfg.whitelist[..n - 1]
  }

  /** The profile asked for is not configured, and the name or the whitelist would change. */
  predicate EditsAndRefuses(cfg: Config, req: Request) {
    && req.EditClient?
    && var ip, profile := TrimSpace(req.ip), TrimSpace(req.profile);
    && ip != "" && profile != "" && profile !in cfg.profiles
    && (NameDiffers(cfg, ip, TrimSpace(req.clientName)) || WhitelistDiffers(cfg, ip, req.wanted))
  }

  lemma {:induction false} WithoutKeepsIff(items: seq<string>, item: string)
    ensures Without(items, item) == items <==> item !in items
    ensures |Without(items, item)| <= |items|
    ensures item in items ==> |Without(items, item)| < |items|
    ensures item !in Without(items, item)
  {
    if items != [] {
      var init, last := items[..|items| - 1], items[|items| - 1];
      WithoutKeepsIff(init, item);
      assert items == init + [last];
    }
  }

  lemma AddingKeepsIff(items: seq<string>, item: string)
    ensures Without(items, item) + [item] == items <==>
      items != [] && items[|items| - 1] == item && item !in items[..|items| - 1]
  {
    if items != [] {
      var init, last := items[..|items| - 1], items[|items| - 1];
      assert items == init + [last];
      if last == item {
        WithoutKeepsIff(init, item);
        hide Without;
        SameEnd(Without(init, item), init, item);
      } else {
        hide Without;
      }
    }
  }

  lemma SameEnd(a: seq<string>, b: seq<string>, item: string)
    ensures a + [item] == b + [item] <==> a == b
  {
    if a + [item] == b + [item] {
      assert (a + [item])[..|a|] == a && (b + [item])[..|b|] == b;
    }
  }

  lemma WhitelistKeptIff(cfg: Config, ip: string, wanted: Option<bool>)
    ensures Whitelisted(cfg.whitelist, ip, wanted) == cfg.whitelist <==> !WhitelistDiffers(cfg, ip, wanted)
  {
    WithoutKeepsIff(cfg.whitelist, ip);
    AddingKeepsIff(cfg.whitelist, ip);
    hide Without;
  }

  lemma NameKeptIff(cfg: Config, ip: string, name: string)
    ensures Renamed(cfg.clientNames, ip, name) == cfg.clientNames <==> !NameDiffers(cfg, ip, name)
  {
    if name == "" {
      assert ip !in cfg.clientNames - {ip};
      if ip !in cfg.clientNames {
        assert cfg.clientNames - {ip} == cfg.clientNames;
      }
    } else if !NameDiffers(cfg, ip, name) {
      assert cfg.clientNames[ip := name] == cfg.clientNames;
    } else {
      assert cfg.clientNames[ip := name][ip] == name;
    }
  }

  /** After a request for users or for a client memory and disk part exactly when it edits and then refuses,
      which can be told from the request and the configuration before. */
  lemma MemoryPartsFromDiskIff(env: Env, s: State, req: Request, writeWorks: bool)
    requires s.cfg == s.disk && !req.Other?
    ensures var t := Guarded(env, s, req, writeWorks);
      t.cfg != t.disk <==> EditsAndRefuses(s.cfg, req)
  {
    hide ValidUsername, AdminCount, ValidConfig, NameDiffers, WhitelistDiffers, Renamed, Whitelisted, TrimSpace;
    if req.EditClient? {
      var ip := TrimSpace(req.ip);
      NameKeptIff(s.cfg, ip, TrimSpace(req.clientName));
      WhitelistKeptIff(s.cfg, ip, req.wanted);
    }
  }

  /** There are such requests: naming client c and asking for a profile that is not there. */
  lemma RefusedEditStays(env: Env, cfg: Config, writeWorks: bool)
    requires "p" !in cfg.profiles && "c" !in cfg.clientNames
    ensures var req := EditClient("c", "n", None, "p");
      var t := Guarded(env, State(cfg, cfg, map[]), req, writeWorks);
      && Handle(env, cfg, req).status == 404 && EditsAndRefuses(cfg, req)
      && t.cfg.clientNames == cfg.clientNames["c" := "n"] && t.disk == cfg
  {
    assert TrimSpace("c") == "c" && TrimSpace("n") == "n" && TrimSpace("p") == "p";
  }

  // ---- two ways to ignore case ----

  lemma AppendDistinct(key: string -> string, users: seq<User>, u: User)
    requires DistinctNames(key, users)
    ensures DistinctNames(key, users + [u]) <==> !Taken(key, users, u.name)
  {
    var more := users + [u];
    assert forall i :: 0 <= i < |users| ==> more[i] == users[i];
    assert more[|users|] == u;
    if DistinctNames(key, more) {
      assert forall i :: 0 <= i < |users| ==> key(more[i].name) != key(more[|users|].name);
    }
  }

  lemma ReplaceDistinct(key: string -> string, users: seq<User>, i: nat, u: User)
    requires DistinctNames(key, users) && i < |users|
    requires u.name == users[i].name || !Taken(key, users, u.name)
    ensures DistinctNames(key, users[i := u])
  {
  }

  lemma RemoveDistinct(key: string -> string, users: seq<User>, i: nat)
    requires DistinctNames(key, users) && i < |users|
    ensures DistinctNames(key, users[..i] + users[i + 1..])
  {
    var fewer := users[..i] + users[i + 1..];
    assert forall k :: 0 <= k < |fewer| ==> fewer[k] == users[if k < i then k else k + 1];
  }

  /** A POST that will be accepted and saved although its name folds to one taken. */
  predicate AcceptsFolded(env: Env, cfg: Config, req: Request, writeWorks: bool) {
    && req.PostUser? && writeWorks && 0 < req.passwordLength <= 4096
    && var name := TrimSpace(req.username);
    && var role := if TrimSpace(req.role) == "" then "viewer" else TrimSpace(req.role);
    && ValidUsername(name) && ValidRole(role)
    && (forall i :: 0 <= i < |cfg.users| ==> cfg.users[i].name != name)
    && ValidConfig(env, cfg.(users := cfg.users + [User(name, req.hash, role)]))
    && Taken(env.fold, cfg.users, name)
  }

  lemma PostAddsIff(env: Env, s: State, req: Request, writeWorks: bool)
    requires req.PostUser? && Taken(env.fold, s.cfg.users, TrimSpace(req.username))
    ensures Guarded(env, s, req, writeWorks).cfg.users != s.cfg.users <==> AcceptsFolded(env, s.cfg, req, writeWorks)
  {
    hide ValidUsername, ValidConfig, Taken, TrimSpace;
    var h := Handle(env, s.cfg, req);
    assert h.status == 200 ==> |h.cfg.users| == |s.cfg.users| + 1;
    if forall i :: 0 <= i < |s.cfg.users| ==> s.cfg.users[i].name != TrimSpace(req.username) {
      assert IndexOf(s.cfg.users, TrimSpace(req.username)) == |s.cfg.users|;
    }
  }

  lemma DistinctAfter(env: Env, s: State, req: Request, writeWorks: bool)
    requires DistinctNames(env.fold, s.cfg.users)
    ensures var t := Guarded(env, s, req, writeWorks);
      DistinctNames(env.fold, t.cfg.users) <==>
        !(req.PostUser? && t.cfg.users != s.cfg.users && Taken(env.fold, s.cfg.users, TrimSpace(req.username)))
  {
    hide ValidUsername, AdminCount, ValidConfig, DistinctNames, Taken, TrimSpace;
    var users := s.cfg.users;
    match req
    case PostUser(username, passwordLength, role, hash) =>
      var h := Post(s.cfg, username, passwordLength, role, hash);
      if h.status == 200 {
        AppendDistinct(env.fold, users, h.cfg.users[|users|]);
      }
    case PatchUser(username, newUsername, passwordLength, role, hash) =>
      var i := IndexOf(users, TrimSpace(username));
      if i < |users| && Patch(env, s.cfg, username, newUsername, passwordLength, role, hash).status == 200 {
        ReplaceDistinct(env.fold, users, i, Changed(users[i], TrimSpace(newUsername), passwordLength, role, hash));
      }
    case DeleteUser(username) =>
      var i := IndexOf(users, TrimSpace(username));
      if i < |users| {
        RemoveDistinct(env.fold, users, i);
      }
    case EditClient(ip, name, wanted, profile) =>
    case Other(others, status) =>
  }

  /** validateConfig tells names apart by strings.ToLower, PATCH by strings.EqualFold. Names that are distinct by
      the latter stay so through every request but such a POST: renaming and removing always keep them distinct. */
  lemma FoldDistinctIff(env: Env, s: State, req: Request, writeWorks: bool)
    requires DistinctNames(env.fold, s.cfg.users)
    ensures DistinctNames(env.fold, Guarded(env, s, req, writeWorks).cfg.users) <==>
      !AcceptsFolded(env, s.cfg, req, writeWorks)
  {
    hide DistinctNames, Guarded, Taken, ValidUsername, ValidConfig, TrimSpace, ValidRole;
    DistinctAfter(env, s, req, writeWorks);
    if req.PostUser? && Taken(env.fold, s.cfg.users, TrimSpace(req.username)) {
      PostAddsIff(env, s, req, writeWorks);
    }
  }

  /** The long s folds to s, but is its own lower case. */
  const LONG_S: string := "\U{17F}"

  function LongSEnv(): Env {
    Env((name: string) => Lower(name), (name: string) => if name == LONG_S then "s" else Lower(name),
        (c: Config) => true)
  }

  lemma LongSIsValid()
    ensures ValidUsername(LONG_S) && TrimSpace(LONG_S) == LONG_S && Lower(LONG_S) == LONG_S && Lower("s") == "s"
    ensures ValidUsername("s") && TrimSpace("h") == "h" && TrimSpace("admin") == "admin"
  {
    assert LONG_S[..0] == "" && "s"[..0] == "";
    assert |Utf8(LONG_S)| == 2 && |Utf8("s")| == 1;
    assert TrimLeft("admin") == "admin" && TrimRight("admin") == "admin";
  }

  /** Where the only user is "s", a POST of the long s is accepted, valid and saved, and the two fold alike. */
  lemma LongSIsAccepted(cfg: Config)
    requires cfg.users == [User("s", "h", "admin")]
    ensures var req, env := PostUser(LONG_S, 8, "admin", "h"), LongSEnv();
      var t := Guarded(env, State(cfg, cfg, map[]), req, true);
      && DistinctNames(env.fold, cfg.users) && AcceptsFolded(env, cfg, req, true)
      && ValidConfig(env, t.cfg) && t.disk == t.cfg && |t.cfg.users| == 2 && !DistinctNames(env.fold, t.cfg.users)
  {
    LongSIsValid();
    hide ValidUsername, TrimSpace, Lower;
    var req, env := PostUser(LONG_S, 8, "admin", "h"), LongSEnv();
    var users := [User("s", "h", "admin"), User(LONG_S, "h", "admin")];
    assert cfg.users + [User(LONG_S, "h", "admin")] == users;
    assert ValidUser(users[0]) && ValidUser(users[1]);
    assert env.lower(users[0].name) != env.lower(users[1].name);
    assert env.fold(users[0].name) == env.fold(users[1].name) == "s";
    assert Taken(env.fold, cfg.users, LONG_S) by {
      assert env.fold(cfg.users[0].name) == env.fold(LONG_S);
    }
    assert IndexOf(cfg.users, LONG_S) == |cfg.users|;
    var t := Guarded(env, State(cfg, cfg, map[]), req, true);
    assert t.cfg.users == users;
  }
}
