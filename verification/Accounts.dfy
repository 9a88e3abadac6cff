/** Users, sessions and the configuration transaction around every changing request. */
module Accounts {
  import opened Text

  const MAX_SESSIONS: nat := 1024
  const SESSION_LIFETIME: int := 12 * 60 * 60 * 1_000_000_000

  datatype User = User(name: string, hash: string, role: string)

  /** profiles: the names of the configured ones; others stands for all further settings. */
  datatype Config = Config(users: seq<User>, clientNames: map<string, string>, whitelist: seq<string>,
                           clientProfiles: map<string, string>, profiles: set<string>, others: string)

  /** strings.ToLower, a folding that strings.EqualFold compares by, and the checks on the other settings. */
  datatype Env = Env(lower: string -> string, fold: string -> string, othersValid: Config -> bool)

  datatype Session = Session(user: string, role: string, expires: int)

  // ---- validation ----

  predicate IsControl(c: char) {
    (c as int) < 0x20 || 0x7f <= (c as int) < 0xa0
  }

  predicate ValidUsername(name: string) {
    name != "" && |Utf8(name)| <= 64 && forall i :: 0 <= i < |name| ==> !IsSpace(name[i]) && !IsControl(name[i])
  }

  /** A name is not empty, at most 64 bytes, and all of characters that are neither blank nor control characters; so
      nothing is trimmed from it. */
  lemma UsernameMeans(name: string)
    ensures ValidUsername(name) <==>
      && 1 <= |name| && |Utf8(name)| <= 64
      && forall c :: c in name ==> !IsSpace(c) && ' ' < c && !('\U{7F}' <= c <= '\U{9F}')
    ensures ValidUsername(name) ==> TrimSpace(name) == name
  {
    TrimmedHasNoEdgeSpace(name);
    hide Utf8;
    if ValidUsername(name) {
      forall c | c in name ensures !IsSpace(c) && !IsControl(c) {
        var i :| 0 <= i < |name| && name[i] == c;
      }
    }
    assert forall i :: 0 <= i < |name| ==> name[i] in name;
  }

  predicate ValidRole(role: string) {
    role == "admin" || role == "viewer"
  }

  predicate ValidUser(u: User) {
    ValidUsername(u.name) && ValidRole(u.role) && TrimSpace(u.hash) != ""
  }

  /** No two users whose names this turns into the same. */
  predicate DistinctNames(key: string -> string, users: seq<User>) {
    forall i, j :: 0 <= i < j < |users| ==> key(users[i].name) != key(users[j].name)
  }

  predicate ValidUsers(env: Env, users: seq<User>) {
    DistinctNames(env.lower, users) && forall i :: 0 <= i < |users| ==> ValidUser(users[i])
  }

  predicate ValidConfig(env: Env, cfg: Config) {
    ValidUsers(env, cfg.users) && env.othersValid(cfg)
  }

  /** validateConfig: all issues are collected, here counted */
  method ValidateConfig(env: Env, cfg: Config) returns (issues: nat)
    ensures issues == 0 <==>
      && env.othersValid(cfg)
      && (forall i, j :: 0 <= i < j < |cfg.users| ==> env.lower(cfg.users[i].name) != env.lower(cfg.users[j].name))
      && (forall i :: 0 <= i < |cfg.users| ==>
            && ValidUsername(cfg.users[i].name) && cfg.users[i].role in {"admin", "viewer"}
            && TrimSpace(cfg.users[i].hash) != "")
    ensures issues == 0 <==> ValidConfig(env, cfg)
  {
    hide ValidUsername;
    issues := if env.othersValid(cfg) then 0 else 1;
    var seen: set<string> := {};
    for i := 0 to |cfg.users|
      invariant seen == set k | 0 <= k < i :: env.lower(cfg.users[k].name)
      invariant issues == 0 <==> ValidUsers(env, cfg.users[..i]) && env.othersValid(cfg)
    {
      var user := cfg.users[i];
      ghost var before := issues;
      if !ValidUsername(user.name) {
        issues := issues + 1;
      }
      var key := env.lower(user.name);
      if key in seen {
        issues := issues + 1;
      }
      seen := seen + {key};
      if user.role != "admin" && user.role != "viewer" {
        issues := issues + 1;
      }
      if TrimSpace(user.hash) == "" {
        issues := issues + 1;
      }
      OneMoreUser(env, cfg.users, i);
    }
    assert cfg.users[..|cfg.users|] == cfg.users;
  }

  predicate Taken(key: string -> string, users: seq<User>, name: string) {
    exists i :: 0 <= i < |users| && key(users[i].name) == key(name)
  }

  lemma OneMoreUser(env: Env, users: seq<User>, i: nat)
    requires i < |users|
    ensures ValidUsers(env, users[..i + 1]) <==>
      ValidUsers(env, users[..i]) && ValidUser(users[i]) && !Taken(env.lower, users[..i], users[i].name)
  {
    hide ValidUser;
    var longer, shorter := users[..i + 1], users[..i];
    assert forall k :: 0 <= k < i ==> longer[k] == shorter[k] == users[k];
    assert longer[i] == users[i];
  }

  // ---- users ----

  /** Position of the user with this exact name, or |users|. */
  function IndexOf(users: seq<User>, name: string): (i: nat)
    ensures i <= |users|
    ensures i < |users| ==> users[i].name == name
    ensures forall k :: 0 <= k < i ==> users[k].name != name
  {
    if users == [] then 0
    else if users[0].name == name then 0
    else
      var i := 1 + IndexOf(users[1..], name);
      assert forall k :: 1 <= k < i ==> users[k] == users[1..][k - 1];
      i
  }

  function AdminCount(users: seq<User>): nat {
    if users == [] then 0
    else AdminCount(users[..|users| - 1]) + if users[|users| - 1].role == "admin" then 1 else 0
  }

  /** What a request handler leaves: the configuration, whose sessions it revoked, and its status. */
  datatype Handled = Handled(cfg: Config, revoked: Option<string>, status: nat)

  function Refused(cfg: Config, status: nat): Handled {
    Handled(cfg, None, status)
  }

  /** handleUsers, POST; hash is what passwordHash made of the password */
  function Post(cfg: Config, username: string, passwordLength: nat, role: string, hash: string): Handled {
    var name := TrimSpace(username);
    var r := if TrimSpace(role) == "" then "viewer" else TrimSpace(role);
    if !ValidUsername(name) || passwordLength == 0 || passwordLength > 4096 || !ValidRole(r) then Refused(cfg, 400)
    else if IndexOf(cfg.users, name) < |cfg.users| then Refused(cfg, 409)
    else Handled(cfg.(users := cfg.users + [User(name, hash, r)]), None, 200)
  }

  function Changed(u: User, newName: string, passwordLength: nat, role: string, hash: string): User {
    User(if newName != "" then newName else u.name,
         if passwordLength > 0 then hash else u.hash,
         if role != "" then role else u.role)
  }

  /** handleUsers, PATCH */
  function Patch(env: Env, cfg: Config, username: string, newUsername: string, passwordLength: nat, role: string,
                 hash: string): Handled
  {
    var name, newName := TrimSpace(username), TrimSpace(newUsername);
    if !ValidUsername(name) || (newUsername != "" && !ValidUsername(newName)) then Refused(cfg, 400)
    else if (role != "" && !ValidRole(role)) || passwordLength > 4096 then Refused(cfg, 400)
    else
      var i := IndexOf(cfg.users, name);
      if i == |cfg.users| then Refused(cfg, 404)
      else
        var newRole := if role != "" then role else cfg.users[i].role;
        if cfg.users[i].role == "admin" && newRole != "admin" && AdminCount(cfg.users) <= 1 then Refused(cfg, 400)
        else if newName != "" && newName != name && Taken(env.fold, cfg.users, newName) then Refused(cfg, 409)
        else
          Handled(cfg.(users := cfg.users[i := Changed(cfg.users[i], newName, passwordLength, role, hash)]),
                  Some(name), 200)
  }

  /** handleUsers, DELETE */
  function Delete(cfg: Config, username: string): Handled {
    var i := IndexOf(cfg.users, TrimSpace(username));
    if i == |cfg.users| then Refused(cfg, 404)
    else if |cfg.users| <= 1 then Refused(cfg, 400)
    else if cfg.users[i].role == "admin" && AdminCount(cfg.users) <= 1 then Refused(cfg, 400)
    else Handled(cfg.(users := cfg.users[..i] + cfg.users[i + 1..]), Some(TrimSpace(username)), 204)
  }

  function Whitelisted(whitelist: seq<string>, ip: string, wanted: Option<bool>): seq<string> {
    match wanted
    case None => whitelist
    case Some(true) => Without(whitelist, ip) + [ip]
    case Some(false) => Without(whitelist, ip)
  }

  function Renamed(names: map<string, string>, ip: string, name: string): map<string, string> {
    if name == "" then names - {ip} else names[ip := name]
  }

  /** handleClients, PATCH: name and whitelist are edited before the profile is looked up. */
  function EditedClient(cfg: Config, ip: string, name: string, wanted: Option<bool>, profile: string): Handled {
    var key, p := TrimSpace(ip), TrimSpace(profile);
    var named := cfg.(clientNames := Renamed(cfg.clientNames, key, TrimSpace(name)),
                      whitelist := Whitelisted(cfg.whitelist, key, wanted));
    if key == "" then Refused(cfg, 400)
    else if p == "" then Handled(named.(clientProfiles := cfg.clientProfiles - {key}), None, 200)
    else if p !in cfg.profiles then Handled(named, None, 404)
    else Handled(named.(clientProfiles := cfg.clientProfiles[key := p]), None, 200)
  }

  /** A changing request. Other: any handler that leaves the users alone, with the settings it leaves. */
  datatype Request =
    | PostUser(username: string, passwordLength: nat, role: string, hash: string)
    | PatchUser(username: string, newUsername: string, passwordLength: nat, role: string, hash: string)
    | DeleteUser(username: string)
    | EditClient(ip: string, clientName: string, wanted: Option<bool>, profile: string)
    | Other(others: string, status: nat)

  function Handle(env: Env, cfg: Config, req: Request): Handled {
    match req
    case PostUser(username, passwordLength, role, hash) => Post(cfg, username, passwordLength, role, hash)
    case PatchUser(username, newUsername, passwordLength, role, hash) =>
      Patch(env, cfg, username, newUsername, passwordLength, role, hash)
    case DeleteUser(username) => Delete(cfg, username)
    case EditClient(ip, name, wanted, profile) => EditedClient(cfg, ip, name, wanted, profile)
    case Other(others, status) => Handled(cfg.(others := others), None, status)
  }

  function WithoutUser(sessions: map<string, Session>, name: string): map<string, Session> {
    map token | token in sessions && sessions[token].user != name :: sessions[token]
  }

  function Revoked(sessions: map<string, Session>, name: Option<string>): map<string, Session> {
    if name.None? then sessions else WithoutUser(sessions, name.value)
  }

  // ---- the server's state ----

  /** What lasts across requests. */
  datatype State = State(cfg: Config, disk: Config, sessions: map<string, Session>)

  /** The state after a changing request: kept as handled, saved, or rolled back. */
  function Guarded(env: Env, s: State, req: Request, writeWorks: bool): State {
    var h := Handle(env, s.cfg, req);
    var sessions := Revoked(s.sessions, h.revoked);
    if !(200 <= h.status < 300) then State(h.cfg, s.disk, sessions)
    else if ValidConfig(env, h.cfg) && writeWorks then State(h.cfg, h.cfg, sessions)
    else State(s.cfg, s.disk, sessions)
  }

  /** What the client is sent: the handler's own buffered answer, or an error of the guard. */
  datatype Sent = Buffered(status: nat) | GuardError(status: nat)

  class Server {
    const env: Env
    var cfg: Config
    var disk: Config
    var sessions: map<string, Session>
    /** Keys of the response cache. */
    var cached: set<string>

    constructor (env: Env, cfg: Config)
      ensures this.env == env && this.cfg == cfg == disk && sessions == map[] && cached == {}
    {
      this.env, this.cfg, disk, sessions, cached := env, cfg, cfg, map[], {};
    }

    method FindUser(username: string) returns (user: Option<User>)
      ensures var i := IndexOf(cfg.users, username);
        user == if i < |cfg.users| then Some(cfg.users[i]) else None
    {
      for i := 0 to |cfg.users|
        invariant forall k :: 0 <= k < i ==> cfg.users[k].name != username
      {
        if cfg.users[i].name == username {
          return Some(cfg.users[i]);
        }
      }
      user := None;
    }

    method CountAdmins() returns (count: nat)
      ensures count == AdminCount(cfg.users)
    {
      count := 0;
      for i := 0 to |cfg.users|
        invariant count == AdminCount(cfg.users[..i])
      {
        assert cfg.users[..i + 1][..i] == cfg.users[..i];
        if cfg.users[i].role == "admin" {
          count := count + 1;
        }
      }
      assert cfg.users[..|cfg.users|] == cfg.users;
    }

    method RevokeUserSessions(username: string)
      modifies this`sessions
      ensures sessions == WithoutUser(old(sessions), username)
    {
      ghost var before := sessions;
      var rest := sessions.Keys;
      while rest != {}
        invariant rest <= sessions.Keys
        invariant forall token :: token in sessions <==>
          token in before && (token in rest || before[token].user != username)
        invariant forall token :: token in sessions ==> sessions[token] == before[token]
      {
        var token :| token in rest;
        if sessions[token].user == username {
          sessions := sessions - {token};
        }
        rest := rest - {token};
      }
    }

    method AddUser(username: string, passwordLength: nat, role: string, hash: string) returns (status: nat)
      modifies this`cfg
      ensures Handled(cfg, None, status) == Post(old(cfg), username, passwordLength, role, hash)
    {
      var name, r := TrimSpace(username), TrimSpace(role);
      if r == "" {
        r := "viewer";
      }
      if !ValidUsername(name) || passwordLength == 0 || passwordLength > 4096 || (r != "admin" && r != "viewer") {
        return 400;
      }
      var existing := FindUser(name);
      if existing.Some? {
        return 409;
      }
      cfg := cfg.(users := cfg.users + [User(name, hash, r)]);
      status := 200;
    }

    method PatchUser(username: string, newUsername: string, passwordLength: nat, role: string, hash: string)
      returns (status: nat)
      modifies this`cfg, this`sessions
      ensures var h := Patch(env, old(cfg), username, newUsername, passwordLength, role, hash);
        cfg == h.cfg && status == h.status && sessions == Revoked(old(sessions), h.revoked)
    {
      hide ValidUsername, AdminCount;
      var name := TrimSpace(username);
      if !ValidUsername(name) {
        return 400;
      }
      if newUsername != "" && !ValidUsername(TrimSpace(newUsername)) {
        return 400;
      }
      if role != "" && role != "admin" && role != "viewer" {
        return 400;
      }
      if passwordLength > 4096 {
        return 400;
      }
      for i := 0 to |cfg.users|
        invariant forall k :: 0 <= k < i ==> cfg.users[k].name != name
      {
        var user := cfg.users[i];
        if user.name == name {
          status := PatchAt(i, TrimSpace(newUsername), passwordLength, role, hash);
          return;
        }
      }
      status := 404;
    }

    method PatchAt(i: nat, newName: string, passwordLength: nat, role: string, hash: string) returns (status: nat)
      requires i < |cfg.users| && i == IndexOf(cfg.users, cfg.users[i].name)
      modifies this`cfg, this`sessions
      ensures var u := old(cfg).users[i];
        if u.role == "admin" && (if role != "" then role else u.role) != "admin" && AdminCount(old(cfg).users) <= 1
        then status == 400 && cfg == old(cfg) && sessions == old(sessions)
        else if newName != "" && newName != u.name && Taken(env.fold, old(cfg).users, newName)
        then status == 409 && cfg == old(cfg) && sessions == old(sessions)
        else
          && status == 200 && sessions == WithoutUser(old(sessions), u.name)
          && cfg == old(cfg).(users := old(cfg).users[i := Changed(u, newName, passwordLength, role, hash)])
    {
      hide AdminCount, WithoutUser, IndexOf;
      var user := cfg.users[i];
      var admins := CountAdmins();
      if user.role == "admin" && (if role != "" then role else user.role) != "admin" && admins <= 1 {
        return 400;
      }
      if newName != "" && newName != user.name {
        for k := 0 to |cfg.users|
          invariant forall m :: 0 <= m < k ==> env.fold(cfg.users[m].name) != env.fold(newName)
        {
          if env.fold(cfg.users[k].name) == env.fold(newName) {
            return 409;
          }
        }
        cfg := cfg.(users := cfg.users[i := cfg.users[i].(name := newName)]);
      }
      if role != "" {
        cfg := cfg.(users := cfg.users[i := cfg.users[i].(role := role)]);
      }
      if passwordLength > 0 {
        cfg := cfg.(users := cfg.users[i := cfg.users[i].(hash := hash)]);
      }
      RevokeUserSessions(user.name);
      status := 200;
    }

    method DeleteUser(username: string) returns (status: nat)
      modifies this`cfg, this`sessions
      ensures var h := Delete(old(cfg), username);
        cfg == h.cfg && status == h.status && sessions == Revoked(old(sessions), h.revoked)
    {
      hide AdminCount;
      var name := TrimSpace(username);
      for i := 0 to |cfg.users|
        invariant forall k :: 0 <= k < i ==> cfg.users[k].name != name
      {
        if cfg.users[i].name == name {
          if |cfg.users| <= 1 {
            return 400;
          }
          var admins := CountAdmins();
          if cfg.users[i].role == "admin" && admins <= 1 {
            return 400;
          }
          cfg := cfg.(users := cfg.users[..i] + cfg.users[i + 1..]);
          RevokeUserSessions(name);
          return 204;
        }
      }
      status := 404;
    }

    /** handleClients, PATCH */
    method PatchClient(ip: string, name: string, wanted: Option<bool>, profile: string) returns (status: nat)
      modifies this`cfg
      ensures Handled(cfg, None, status) == EditedClient(old(cfg), ip, name, wanted, profile)
    {
      hide TrimSpace;
      var key := TrimSpace(ip);
      if key == "" {
        return 400;
      }
      if TrimSpace(name) == "" {
        cfg := cfg.(clientNames := cfg.clientNames - {key});
      } else {
        cfg := cfg.(clientNames := cfg.clientNames[key := TrimSpace(name)]);
      }
      if wanted.Some? {
        var next := [];
        for i := 0 to |cfg.whitelist|
          invariant next == Without(cfg.whitelist[..i], key)
        {
          assert cfg.whitelist[..i + 1][..i] == cfg.whitelist[..i];
          if cfg.whitelist[i] != key {
            next := next + [cfg.whitelist[i]];
          }
        }
        assert cfg.whitelist[..|cfg.whitelist|] == cfg.whitelist;
        if wanted.value {
          next := next + [key];
        }
        cfg := cfg.(whitelist := next);
      }
      if TrimSpace(profile) == "" {
        cfg := cfg.(clientProfiles := cfg.clientProfiles - {key});
      } else {
        if TrimSpace(profile) !in cfg.profiles {
          return 404;
        }
        cfg := cfg.(clientProfiles := cfg.clientProfiles[key := TrimSpace(profile)]);
      }
      status := 200;
    }

    method HandleRequest(req: Request) returns (status: nat)
      modifies this`cfg, this`sessions
      ensures var h := Handle(env, old(cfg), req);
        cfg == h.cfg && status == h.status && sessions == Revoked(old(sessions), h.revoked)
    {
      hide Post, Patch, Delete, EditedClient;
      match req
      case PostUser(username, passwordLength, role, hash) =>
        status := AddUser(username, passwordLength, role, hash);
      case PatchUser(username, newUsername, passwordLength, role, hash) =>
        status := PatchUser(username, newUsername, passwordLength, role, hash);
      case DeleteUser(username) =>
        status := DeleteUser(username);
      case EditClient(ip, name, wanted, profile) =>
        status := PatchClient(ip, name, wanted, profile);
      case Other(others, code) =>
        cfg := cfg.(others := others);
        status := code;
    }

    /** configGuard for a changing request: snapshot, handle, validate, save, or roll back. */
    method ConfigGuard(req: Request, writeWorks: bool) returns (sent: Sent)
      modifies this
      ensures sent.Buffered? && 200 <= sent.status < 300 ==>
        ValidConfig(env, cfg) && disk == cfg && cached == {}
      ensures sent.GuardError? ==>
        sent.status >= 400 && cfg == old(cfg) && disk == old(disk) && cached == old(cached)
      ensures State(cfg, disk, sessions) == Guarded(env, old(State(cfg, disk, sessions)), req, writeWorks)
      ensures var h := Handle(env, old(cfg), req);
        && (sent.GuardError? <==> 200 <= h.status < 300 && !(ValidConfig(env, h.cfg) && writeWorks))
        && (sent.Buffered? ==> sent.status == h.status && cfg == h.cfg)
        && (sent.Buffered? && !(200 <= h.status < 300) ==> disk == old(disk) && cached == old(cached))
    {
      hide Handle, ValidConfig;
      var before := cfg;
      var status := HandleRequest(req);
      if 200 <= status < 300 {
        var issues := ValidateConfig(env, cfg);
        if issues > 0 {
          cfg := before;
          return GuardError(400);
        }
        if !writeWorks {
          cfg := before;
          return GuardError(500);
        }
        disk := cfg;
        cached := {};
      }
      sent := Buffered(status);
    }

    /** The session part of a successful login. The clock is read before the lock is taken, for the new session,
        and again under it, for the old ones. */
    method AdmitSession(token: string, user: User, stamped: int, now: int)
      modifies this`sessions
      ensures MayAdmit(old(sessions), sessions, token, user, stamped, now)
    {
      ghost var before := sessions;
      var rest := sessions.Keys;
      while rest != {}
        invariant rest <= sessions.Keys
        invariant forall t :: t in sessions <==> t in before && (t in rest || now <= before[t].expires)
        invariant forall t :: t in sessions ==> sessions[t] == before[t]
      {
        var t :| t in rest;
        if now > sessions[t].expires {
          sessions := sessions - {t};
        }
        rest := rest - {t};
      }
      assert sessions == Unexpired(before, now);
      ghost var live := sessions;
      if |sessions| >= MAX_SESSIONS {
        assert |sessions.Keys| > 0;
        var oldest := Oldest();
        sessions := sessions - {oldest};
      }
      ghost var kept := sessions;
      sessions := sessions[token := Session(user.name, user.role, stamped + SESSION_LIFETIME)];
      assert GivesUpOldest(live, kept);
    }

    method Oldest() returns (oldest: string)
      requires |sessions| > 0
      ensures oldest in sessions && forall t :: t in sessions ==> sessions[oldest].expires <= sessions[t].expires
    {
      assert |sessions.Keys| > 0;
      oldest :| oldest in sessions;
      var rest := sessions.Keys - {oldest};
      while rest != {}
        invariant rest <= sessions.Keys && oldest in sessions
        invariant forall t :: t in sessions && t !in rest ==> sessions[oldest].expires <= sessions[t].expires
      {
        var t :| t in rest;
        if sessions[t].expires < sessions[oldest].expires {
          oldest := t;
        }
        rest := rest - {t};
      }
    }

    /** sessionFromRequest with authentication enabled */
    method SessionFromRequest(token: string, now: int) returns (session: Option<Session>)
      modifies this`sessions
      ensures session ==
        if token in old(sessions) && now <= old(sessions)[token].expires then Some(old(sessions)[token]) else None
      ensures sessions == if session.Some? then old(sessions) else old(sessions) - {token}
    {
      if token !in sessions || now > sessions[token].expires {
        sessions := sessions - {token};
        return None;
      }
      session := Some(sessions[token]);
    }
  }

  function Unexpired(sessions: map<string, Session>, now: int): map<string, Session> {
    map t | t in sessions && now <= sessions[t].expires :: sessions[t]
  }

  ghost predicate GivesUpOldest(live: map<string, Session>, kept: map<string, Session>) {
    if |live| < MAX_SESSIONS then kept == live
    else
      exists oldest :: oldest in live && kept == live - {oldest}
        && forall t :: t in live ==> live[oldest].expires <= live[t].expires
  }

  /** Login: expired sessions go, then the oldest if still full, then the new one is added. */
  ghost predicate MayAdmit(s: map<string, Session>, s': map<string, Session>, token: string, user: User, stamped: int,
                           now: int)
  {
    exists kept :: GivesUpOldest(Unexpired(s, now), kept)
      && s' == kept[token := Session(user.name, user.role, stamped + SESSION_LIFETIME)]
  }

  // ---- every run of requests ----

  /** Nothing is taken for granted of the guarded request: any handler, with the write working or not. */
  ghost predicate Step(env: Env, s: State, t: State) {
    || (exists req, writeWorks :: t == Guarded(env, s, req, writeWorks))
    || Login(s, t)
    || (exists token :: t == s.(sessions := s.sessions - {token}))    // logout, or a lookup of an expired session
  }

  ghost predicate Login(s: State, t: State) {
    exists i, token, stamped, now :: 0 <= i < |s.cfg.users| && LoggedIn(s, t, s.cfg.users[i], token, stamped, now)
  }

  ghost predicate LoggedIn(s: State, t: State, user: User, token: string, stamped: int, now: int) {
    t.cfg == s.cfg && t.disk == s.disk && MayAdmit(s.sessions, t.sessions, token, user, stamped, now)
  }

  ghost predicate IsRun(env: Env, run: seq<State>) {
    && run != []
    && ValidConfig(env, run[0].cfg) && run[0].disk == run[0].cfg && run[0].sessions == map[]
    && forall i :: 0 < i < |run| ==> Step(env, run[i - 1], run[i])
  }

  predicate IsCurrent(users: seq<User>, session: Session) {
    exists i :: 0 <= i < |users| && users[i].name == session.user && users[i].role == session.role
  }

  predicate AllCurrent(users: seq<User>, sessions: map<string, Session>) {
    forall token :: token in sessions ==> IsCurrent(users, sessions[token])
  }

  ghost predicate Inv(env: Env, s: State) {
    && ValidUsers(env, s.cfg.users)
    && ValidConfig(env, s.disk)
    && AllCurrent(s.cfg.users, s.sessions)
    && |s.sessions| <= MAX_SESSIONS
  }

  lemma {:induction false} AdminCountJoins(a: seq<User>, b: seq<User>)
    ensures AdminCount(a + b) == AdminCount(a) + AdminCount(b)
  {
    if b == [] {
      assert a + b == a;
    } else {
      AdminCountJoins(a, b[..|b| - 1]);
      assert (a + b)[..|a + b| - 1] == a + b[..|b| - 1];
    }
  }

  /** Putting us in the place of one user changes the count by the difference. */
  lemma AdminCountAt(users: seq<User>, i: nat, us: seq<User>)
    requires i < |users|
    ensures AdminCount(users[..i] + us + users[i + 1..]) ==
      AdminCount(users) - AdminCount([users[i]]) + AdminCount(us)
  {
    AdminCountJoins(users[..i] + us, users[i + 1..]);
    AdminCountJoins(users[..i], us);
    assert users == users[..i] + [users[i]] + users[i + 1..];
    AdminCountJoins(users[..i] + [users[i]], users[i + 1..]);
    AdminCountJoins(users[..i], [users[i]]);
  }

  lemma OneAdmin(u: User)
    ensures AdminCount([u]) == if u.role == "admin" then 1 else 0
  {
    assert [u][..0] == [];
  }

  lemma PatchKeepsAnAdmin(env: Env, cfg: Config, username: string, newUsername: string, passwordLength: nat,
                          role: string, hash: string)
    requires AdminCount(cfg.users) > 0
    ensures AdminCount(Patch(env, cfg, username, newUsername, passwordLength, role, hash).cfg.users) > 0
  {
    hide AdminCount, ValidUsername;
    var i := IndexOf(cfg.users, TrimSpace(username));
    if i < |cfg.users| {
      var u := Changed(cfg.users[i], TrimSpace(newUsername), passwordLength, role, hash);
      AdminCountAt(cfg.users, i, [u]);
      OneAdmin(u);
      OneAdmin(cfg.users[i]);
      assert cfg.users[i := u] == cfg.users[..i] + [u] + cfg.users[i + 1..];
    }
  }

  lemma DeleteKeepsAnAdmin(cfg: Config, username: string)
    requires AdminCount(cfg.users) > 0
    ensures AdminCount(Delete(cfg, username).cfg.users) > 0
  {
    hide AdminCount;
    var i := IndexOf(cfg.users, TrimSpace(username));
    if i < |cfg.users| {
      AdminCountAt(cfg.users, i, []);
      OneAdmin(cfg.users[i]);
      AdminCountJoins(cfg.users, []);
      assert cfg.users + [] == cfg.users;
      assert cfg.users[..i] + [] + cfg.users[i + 1..] == cfg.users[..i] + cfg.users[i + 1..];
    }
  }

  lemma HandlersKeepAnAdmin(env: Env, cfg: Config, req: Request)
    requires AdminCount(cfg.users) > 0
    ensures AdminCount(Handle(env, cfg, req).cfg.users) > 0
  {
    hide AdminCount, Patch, Delete, ValidUsername;
    match req
    case PostUser(username, passwordLength, role, hash) =>
      AdminCountJoins(cfg.users, Handle(env, cfg, req).cfg.users[|cfg.users|..]);
    case PatchUser(username, newUsername, passwordLength, role, hash) =>
      PatchKeepsAnAdmin(env, cfg, username, newUsername, passwordLength, role, hash);
    case DeleteUser(username) => DeleteKeepsAnAdmin(cfg, username);
    case EditClient(ip, name, wanted, profile) =>
    case Other(others, status) =>
  }

  lemma StillCurrent(users: seq<User>, users': seq<User>, session: Session, name: string)
    requires IsCurrent(users, session) && session.user != name
    requires forall u :: u in users && u.name != name ==> u in users'
    ensures IsCurrent(users', session)
  {
    var i :| 0 <= i < |users| && users[i].name == session.user && users[i].role == session.role;
    assert users[i] in users';
  }

  /** The sessions a handler leaves are of users it leaves as they were. */
  lemma HandlersLeaveSessionsCurrent(env: Env, cfg: Config, req: Request, sessions: map<string, Session>)
    requires AllCurrent(cfg.users, sessions)
    ensures AllCurrent(Handle(env, cfg, req).cfg.users, Revoked(sessions, Handle(env, cfg, req).revoked))
  {
    hide IsCurrent, ValidUsername, AdminCount;
    var h := Handle(env, cfg, req);
    forall token | token in Revoked(sessions, h.revoked) ensures IsCurrent(h.cfg.users, sessions[token]) {
      var name := if h.revoked.Some? then h.revoked.value else sessions[token].user + "'";
      HandlersKeepOthers(env, cfg, req, name);
      StillCurrent(cfg.users, h.cfg.users, sessions[token], name);
    }
  }

  lemma PatchKeepsOthers(env: Env, cfg: Config, username: string, newUsername: string, passwordLength: nat,
                         role: string, hash: string, u: User)
    requires u in cfg.users && u.name != TrimSpace(username)
    ensures u in Patch(env, cfg, username, newUsername, passwordLength, role, hash).cfg.users
  {
    hide ValidUsername, AdminCount, TrimSpace;
    var k :| 0 <= k < |cfg.users| && cfg.users[k] == u;
    assert Patch(env, cfg, username, newUsername, passwordLength, role, hash).cfg.users[k] == u;
  }

  /** A handler touches no user but the one whose sessions it revokes. */
  lemma HandlersKeepOthers(env: Env, cfg: Config, req: Request, name: string)
    requires Handle(env, cfg, req).revoked.Some? ==> Handle(env, cfg, req).revoked.value == name
    ensures forall u :: u in cfg.users && u.name != name ==> u in Handle(env, cfg, req).cfg.users
  {
    hide ValidUsername, AdminCount, TrimSpace;
    var h := Handle(env, cfg, req);
    forall u | u in cfg.users && u.name != name ensures u in h.cfg.users {
      match req
      case PostUser(_, _, _, _) =>
      case PatchUser(username, newUsername, passwordLength, role, hash) =>
        if h.revoked.Some? {
          PatchKeepsOthers(env, cfg, username, newUsername, passwordLength, role, hash, u);
        }
      case DeleteUser(_) =>
      case EditClient(_, _, _, _) =>
      case Other(_, _) =>
    }
  }

  lemma RevokingShrinks(sessions: map<string, Session>, name: Option<string>)
    ensures |Revoked(sessions, name)| <= |sessions|
  {
    MapSizes(Revoked(sessions, name), sessions);
  }

  lemma MapSizes(m: map<string, Session>, n: map<string, Session>)
    requires m.Keys <= n.Keys
    ensures |m| <= |n|
  {
    SubsetSizes(m.Keys, n.Keys);
    assert |m.Keys| == |m| && |n.Keys| == |n|;
  }

  lemma SubsetSizes(a: set<string>, b: set<string>)
    requires a <= b
    ensures |a| <= |b|
  {
    assert b == a + (b - a);
  }

  lemma GuardKeepsInv(env: Env, s: State, req: Request, writeWorks: bool)
    requires Inv(env, s)
    ensures Inv(env, Guarded(env, s, req, writeWorks))
    ensures AdminCount(s.cfg.users) > 0 ==> AdminCount(Guarded(env, s, req, writeWorks).cfg.users) > 0
  {
    hide Post, Patch, Delete, EditedClient, AdminCount, IsCurrent, DistinctNames, ValidUser;
    RevokingShrinks(s.sessions, Handle(env, s.cfg, req).revoked);
    HandlersLeaveSessionsCurrent(env, s.cfg, req, s.sessions);
    if AdminCount(s.cfg.users) > 0 {
      HandlersKeepAnAdmin(env, s.cfg, req);
    }
    RefusalsChangeNoUser(env, s.cfg, req);
  }

  lemma RefusalsChangeNoUser(env: Env, cfg: Config, req: Request)
    ensures !(200 <= Handle(env, cfg, req).status < 300) ==> Handle(env, cfg, req).cfg.users == cfg.users
  {
    hide ValidUsername, AdminCount;
  }

  lemma LoginKeepsInv(env: Env, s: State, t: State, i: nat, token: string, stamped: int, now: int)
    requires Inv(env, s) && i < |s.cfg.users| && LoggedIn(s, t, s.cfg.users[i], token, stamped, now)
    ensures Inv(env, t) && t.cfg == s.cfg
  {
    hide ValidUsers, ValidConfig, AllCurrent, GivesUpOldest, Unexpired;
    var user := s.cfg.users[i];
    var live := Unexpired(s.sessions, now);
    var added := Session(user.name, user.role, stamped + SESSION_LIFETIME);
    var kept :| GivesUpOldest(live, kept) && t.sessions == kept[token := added];
    UnexpiredIsPart(s.sessions, now);
    GivingUpMakesRoom(live, kept);
    OneMoreSession(s.cfg.users, s.sessions, kept, token, added);
  }

  lemma UnexpiredIsPart(sessions: map<string, Session>, now: int)
    ensures Unexpired(sessions, now).Keys <= sessions.Keys && |Unexpired(sessions, now)| <= |sessions|
    ensures forall token :: token in Unexpired(sessions, now) ==> Unexpired(sessions, now)[token] == sessions[token]
  {
    MapSizes(Unexpired(sessions, now), sessions);
  }

  lemma OneMoreSession(users: seq<User>, sessions: map<string, Session>, kept: map<string, Session>, token: string,
                       added: Session)
    requires AllCurrent(users, sessions) && |kept| < MAX_SESSIONS && kept.Keys <= sessions.Keys
    requires forall t :: t in kept ==> kept[t] == sessions[t]
    requires IsCurrent(users, added)
    ensures AllCurrent(users, kept[token := added]) && |kept[token := added]| <= MAX_SESSIONS
  {
    hide IsCurrent;
    var more := kept[token := added];
    assert more.Keys == kept.Keys + {token};
    assert |more| == |more.Keys| && |kept| == |kept.Keys|;
  }

  lemma GivingUpMakesRoom(live: map<string, Session>, kept: map<string, Session>)
    requires GivesUpOldest(live, kept) && |live| <= MAX_SESSIONS
    ensures |kept| < MAX_SESSIONS && kept.Keys <= live.Keys
    ensures forall token :: token in kept ==> kept[token] == live[token]
  {
    if |live| == MAX_SESSIONS {
      var oldest :| oldest in live && kept == live - {oldest};
      assert kept.Keys == live.Keys - {oldest};
      assert |kept| == |kept.Keys| && |live| == |live.Keys|;
    }
  }

  lemma StepKeepsInv(env: Env, s: State, t: State)
    requires Inv(env, s) && Step(env, s, t)
    ensures Inv(env, t)
    ensures AdminCount(s.cfg.users) > 0 ==> AdminCount(t.cfg.users) > 0
  {
    hide Guarded, LoggedIn, ValidUsers, ValidConfig, IsCurrent, AdminCount;
    if req, writeWorks :| t == Guarded(env, s, req, writeWorks) {
      GuardKeepsInv(env, s, req, writeWorks);
    } else if Login(s, t) {
      var i, token, stamped, now :| 0 <= i < |s.cfg.users| && LoggedIn(s, t, s.cfg.users[i], token, stamped, now);
      LoginKeepsInv(env, s, t, i, token, stamped, now);
    } else {
      var token :| t == s.(sessions := s.sessions - {token});
      MapSizes(t.sessions, s.sessions);
    }
  }

  /** Over every run: user names stay distinct ignoring case, each session names a current user with that
      user's current role, sessions stay within their bound, what is on disk is valid, and the last
      administrator is never lost. */
  lemma {:induction false} RunsKeepInv(env: Env, run: seq<State>, n: nat)
    requires IsRun(env, run) && n < |run|
    ensures Inv(env, run[n])
    ensures AdminCount(run[0].cfg.users) > 0 ==> AdminCount(run[n].cfg.users) > 0
  {
    if n > 0 {
      RunsKeepInv(env, run, n - 1);
      StepKeepsInv(env, run[n - 1], run[n]);
    }
  }

  /** No two users could answer for a session: whoever bears its user's name, in any case, is that user. */
  lemma SessionHasOneUser(env: Env, run: seq<State>, n: nat, token: string, u: User)
    requires IsRun(env, run) && n < |run| && token in run[n].sessions
    requires u in run[n].cfg.users && env.lower(u.name) == env.lower(run[n].sessions[token].user)
    ensures u.name == run[n].sessions[token].user && u.role == run[n].sessions[token].role
  {
    RunsKeepInv(env, run, n);
    var users, session := run[n].cfg.users, run[n].sessions[token];
    var i :| 0 <= i < |users| && users[i].name == session.user && users[i].role == session.role;
    var k :| 0 <= k < |users| && users[k] == u;
    assert i == k;
  }
}
