/** The store server: per-tenant directories of named databases, each a
    key -> JSON store, reached through the routes "/manager/..." (create,
    list, test and drop databases) and "/database/..." (read and write
    entries), every handler behind the access gate. The filesystem and the
    SQLite files are nested maps: a tenant directory is present or not, a
    database directory holds exactly one store file. */
module Server {
  import opened Common
  import opened Gate

  /** One data.sqlite: key -> JSON value. */
  type Database = map<string, Json>
  /** One tenant directory: database name -> its store. */
  type Tenant = map<string, Database>
  /** The storage directory: id key -> tenant directory. */
  type Dirs = map<string, Tenant>

  const StatusOk := 200
  const StatusUnauthorized := 401
  const StatusNotFound := 404
  const StatusMethodNotAllowed := 405
  const StatusServerError := 500

  datatype Body = NoBody | JsonBody(value: Json) | TextBody(text: string)
  datatype Response = Response(status: int, body: Body)

  /** A request as it reaches the server: the verb, the full URL, the two
      credential headers (None when absent) and the JSON-decoded body. */
  datatype Request = Request(verb: string, url: string, idkey: Option<string>, apikey: Option<string>, body: Json)

  /** The server's state and response after one request, with the number of
      values written into a store file. */
  datatype Step = Step(dirs: Dirs, resp: Response, writes: nat)

  /** Every database name in the directories is non-empty and has no "/". */
  ghost predicate WellNamed(dirs: Dirs)
  {
    forall t :: t in dirs ==> forall n :: n in dirs[t] ==> n != "" && '/' !in n
  }

  /** `args[0].split("/")[0]`: the database named by a path, which is the
      path up to its first "/". */
  function DatabaseName(arg: string): (name: string)
    ensures '/' !in name
    ensures name <= arg
    ensures |name| < |arg| ==> arg[|name|] == '/'
  {
    var parts := Split(arg, '/');
    JoinStartsWithHead(parts, '/');
    parts[0]
  }

  lemma JoinStartsWithHead(parts: seq<string>, sep: char)
    requires |parts| >= 1
    ensures parts[0] <= Join(parts, sep)
    ensures |parts[0]| < |Join(parts, sep)| ==> Join(parts, sep)[|parts[0]|] == sep
  {
    if |parts| > 1 {
      assert Join(parts, sep) == parts[0] + ([sep] + Join(parts[1..], sep));
    }
  }

  /** A database handle's requests carry the name followed by "/"; the
      server reads the name back unchanged when it has no "/" of its own. */
  lemma NameOfHandlePath(name: string)
    requires '/' !in name
    ensures DatabaseName(name + "/") == name
  {
    var w := name + "/";
    var n := DatabaseName(w);
    assert forall i :: 0 <= i < |name| ==> w[i] == name[i] && w[i] != '/';
    assert w[|name|] == '/';
    assert n == w[..|n|];
    assert w[..|name|] == name;
  }

  /** Where web.py's url table sends a request: "/manager/(.*)" or
      "/database/(.*)" below the application's mount point `root`. */
  datatype Route = ToManager(arg: string) | ToDatabase(arg: string) | Unrouted

  function RouteOf(root: string, url: string): (r: Route)
    ensures r.ToManager? <==> root + "/manager/" <= url
    ensures r.ToDatabase? <==> root + "/database/" <= url
    ensures r.ToManager? ==> url == root + "/manager/" + r.arg
    ensures r.ToDatabase? ==> url == root + "/database/" + r.arg
  {
    if root + "/manager/" <= url then
      assert url[|root| + 1] == (root + "/manager/")[|root| + 1] == 'm';
      var a := url[|root| + 9..];
      assert url == url[..|root| + 9] + a;
      ToManager(a)
    else if root + "/database/" <= url then
      var a := url[|root| + 10..];
      assert url == url[..|root| + 10] + a;
      ToDatabase(a)
    else Unrouted
  }

  /** `json.dumps` of a list of names. */
  function Names(names: seq<string>): (j: Json)
    ensures j.JArray? && |j.items| == |names|
    ensures forall i :: 0 <= i < |names| ==> j.items[i] == JString(names[i])
  {
    JArray(seq(|names|, i requires 0 <= i < |names| => JString(names[i])))
  }

  /** `key = json.loads(body)`; only string keys are modelled. */
  function KeyOf(body: Json): Option<string>
  {
    if body.JString? then Some(body.s) else None
  }

  /** `key, value = json.loads(body)` */
  function PairOf(body: Json): Option<(string, Json)>
  {
    if body.JArray? && |body.items| == 2 && body.items[0].JString?
    then Some((body.items[0].s, body.items[1]))
    else None
  }

  /** RestNoSql._db and SqliteDict: the store of a database opens only when
      its directory is there; otherwise the open raises (500). */
  function OpenStore(dirs: Dirs, tenant: string, name: string): Option<Database>
  {
    if tenant in dirs && name in dirs[tenant] then Some(dirs[tenant][name]) else None
  }

  // ---------------------------------------------------------------------
  // Database level (RestNoSqlManager)

  /** GET and OPTIONS: the listing of the tenant directory. */
  ghost function ListSpec(dirs: Dirs, tenant: string): Response
  {
    if tenant !in dirs then Response(StatusServerError, NoBody)
    else Response(StatusOk, JsonBody(Names(SortedSet(dirs[tenant].Keys))))
  }

  /** POST: make the tenant directory and the database directory and store
      when absent; an existing database is left as it is. */
  function CreateSpec(dirs: Dirs, tenant: string, arg: string): Step
  {
    var name := DatabaseName(arg);
    var t := if tenant in dirs then dirs[tenant] else map[];
    var t' := if name == "" || name in t then t else t[name := map[]];
    Step(dirs[tenant := t'], Response(StatusOk, TextBody(name)), 0)
  }

  /** HEAD: 200 when the name is in the listing, 404 otherwise. */
  function HeadSpec(dirs: Dirs, tenant: string, arg: string): Response
  {
    if tenant !in dirs then Response(StatusServerError, NoBody)
    else if DatabaseName(arg) in dirs[tenant] then Response(StatusOk, NoBody)
    else Response(StatusNotFound, NoBody)
  }

  /** DELETE: 404 when the name is not in the listing, otherwise remove the
      store file and the database directory. */
  function DropSpec(dirs: Dirs, tenant: string, arg: string): Step
  {
    var name := DatabaseName(arg);
    if tenant !in dirs then Step(dirs, Response(StatusServerError, NoBody), 0)
    else if name !in dirs[tenant] then Step(dirs, Response(StatusNotFound, NoBody), 0)
    else Step(dirs[tenant := dirs[tenant] - {name}], Response(StatusOk, NoBody), 0)
  }

  /** The HTTP methods the two handler classes define. */
  datatype Verb = Get | Put | Post | Head | Delete | Options | Patch

  /** The handler method a request's method string names, if any. */
  function VerbOf(s: string): Option<Verb>
  {
    match s
    case "GET" => Some(Get)
    case "PUT" => Some(Put)
    case "POST" => Some(Post)
    case "HEAD" => Some(Head)
    case "DELETE" => Some(Delete)
    case "OPTIONS" => Some(Options)
    case "PATCH" => Some(Patch)
    case _ => None
  }

  const ManagerVerbs: set<Verb> := {Get, Post, Put, Head, Delete, Options}

  ghost function ManagerSpec(dirs: Dirs, tenant: string, verb: Verb, arg: string): Step
  {
    match verb
    case Get => Step(dirs, ListSpec(dirs, tenant), 0)
    case Options => Step(dirs, ListSpec(dirs, tenant), 0)
    case Post => CreateSpec(dirs, tenant, arg)
    case Head => Step(dirs, HeadSpec(dirs, tenant, arg), 0)
    case Delete => DropSpec(dirs, tenant, arg)
    case _ => Step(dirs, Response(StatusOk, NoBody), 0)   // PUT does nothing
  }

  // ---------------------------------------------------------------------
  // Entry level (RestNoSql)

  /** PUT on one store: the key ends up mapped to exactly the submitted
      value, and the store is written only when the stored value differs.
      No merge with the stored value takes place. */
  function PutIfDifferent(db: Database, key: string, value: Json): (r: (Database, bool))
    ensures r.1 <==> key !in db || !PyEq(db[key], value)
    ensures r.0 == (if r.1 then db[key := value] else db)
    ensures key in r.0 && PyEq(r.0[key], value)
  {
    PyEqReflexive(value);
    if key in db then
      if !PyEq(db[key], value) then (db[key := value], true) else (db, false)
    else (db[key := value], true)
  }

  /** GET: the stored value, 404 for an absent key. */
  function GetSpec(dirs: Dirs, tenant: string, arg: string, body: Json): Response
  {
    var key := KeyOf(body);
    var db := OpenStore(dirs, tenant, DatabaseName(arg));
    if key.None? || db.None? then Response(StatusServerError, JsonBody(JNull))
    else if key.value in db.value then Response(StatusOk, JsonBody(db.value[key.value]))
    else Response(StatusNotFound, JsonBody(JNull))
  }

  /** PUT: write-if-different. */
  function PutSpec(dirs: Dirs, tenant: string, arg: string, body: Json): Step
  {
    var pair := PairOf(body);
    var name := DatabaseName(arg);
    var db := OpenStore(dirs, tenant, name);
    if pair.None? || db.None? then Step(dirs, Response(StatusServerError, NoBody), 0)
    else
      var (db', wrote) := PutIfDifferent(db.value, pair.value.0, pair.value.1);
      Step(dirs[tenant := dirs[tenant][name := db']], Response(StatusOk, NoBody), if wrote then 1 else 0)
  }

  /** POST: unconditional overwrite. */
  function PostSpec(dirs: Dirs, tenant: string, arg: string, body: Json): Step
  {
    var pair := PairOf(body);
    var name := DatabaseName(arg);
    var db := OpenStore(dirs, tenant, name);
    if pair.None? || db.None? then Step(dirs, Response(StatusServerError, NoBody), 0)
    else Step(dirs[tenant := dirs[tenant][name := db.value[pair.value.0 := pair.value.1]]], Response(StatusOk, NoBody), 1)
  }

  /** OPTIONS: the keys of the store. */
  ghost function KeysSpec(dirs: Dirs, tenant: string, arg: string): Response
  {
    var db := OpenStore(dirs, tenant, DatabaseName(arg));
    if db.None? then Response(StatusServerError, JsonBody(JNull))
    else Response(StatusOk, JsonBody(Names(SortedSet(db.value.Keys))))
  }

  /** DELETE: remove the key, 404 for an absent key. */
  function DeleteSpec(dirs: Dirs, tenant: string, arg: string, body: Json): Step
  {
    var key := KeyOf(body);
    var name := DatabaseName(arg);
    var db := OpenStore(dirs, tenant, name);
    if key.None? || db.None? then Step(dirs, Response(StatusServerError, NoBody), 0)
    else if key.value !in db.value then Step(dirs, Response(StatusNotFound, NoBody), 0)
    else Step(dirs[tenant := dirs[tenant][name := db.value - {key.value}]], Response(StatusOk, NoBody), 0)
  }

  const EntryVerbs: set<Verb> := {Get, Put, Post, Options, Delete, Patch}

  ghost function EntrySpec(dirs: Dirs, tenant: string, verb: Verb, arg: string, body: Json): Step
  {
    match verb
    case Get => Step(dirs, GetSpec(dirs, tenant, arg, body), 0)
    case Put => PutSpec(dirs, tenant, arg, body)
    case Post => PostSpec(dirs, tenant, arg, body)
    case Options => Step(dirs, KeysSpec(dirs, tenant, arg), 0)
    case Delete => DeleteSpec(dirs, tenant, arg, body)
    case _ => Step(dirs, Response(StatusOk, NoBody), 0)   // PATCH does nothing
  }

  // ---------------------------------------------------------------------
  // Routing and the gate

  /** The handler method web.py calls for a routed request: the method of
      the request's own name when the handler class defines one; for HEAD on
      a class without HEAD (`RestNoSql`), its GET; otherwise none (405). */
  function HandlerOf(route: Route, verb: Option<Verb>): (h: Option<Verb>)
    requires !route.Unrouted?
    ensures route.ToManager? ==> h == (if verb.Some? && verb.value in ManagerVerbs then verb else None)
    ensures route.ToDatabase? && verb == Some(Head) ==> h == Some(Get)
    ensures route.ToDatabase? && verb != Some(Head) ==> h == (if verb.Some? && verb.value in EntryVerbs then verb else None)
    ensures h.Some? ==> h.value in (if route.ToManager? then ManagerVerbs else EntryVerbs)
  {
    if verb.None? then None
    else if route.ToManager? then (if verb.value in ManagerVerbs then verb else None)
    else if verb.value in EntryVerbs then verb
    else if verb.value == Head then Some(Get)
    else None
  }

  /** One request end to end: routing (404 for an unknown path, 405 when the
      handler class has no method for the verb), then the gate, which checks
      the request's own verb, then the handler method, which receives the id
      key header as its tenant. */
  ghost function ServeSpec(config: Config, root: string, dirs: Dirs, req: Request): Step
  {
    var route := RouteOf(root, req.url);
    if route.Unrouted? then Step(dirs, Response(StatusNotFound, NoBody), 0)
    else
      var handler := HandlerOf(route, VerbOf(req.verb));
      if handler.None? then Step(dirs, Response(StatusMethodNotAllowed, NoBody), 0)
      else
        match Authenticate(config, Env(req.verb, req.idkey, req.apikey))
        case Denied => Step(dirs, Response(StatusUnauthorized, NoBody), 0)
        case Faulted => Step(dirs, Response(StatusServerError, NoBody), 0)
        case Granted(idkey, _) =>
          if route.ToManager? then ManagerSpec(dirs, idkey, handler.value, route.arg)
          else EntrySpec(dirs, idkey, handler.value, route.arg, req.body)
  }

  // ---------------------------------------------------------------------
  // Properties

  lemma CreateKeepsNamesWellFormed(dirs: Dirs, tenant: string, arg: string)
    requires WellNamed(dirs)
    ensures WellNamed(CreateSpec(dirs, tenant, arg).dirs)
  {
    var name := DatabaseName(arg);
    var d := CreateSpec(dirs, tenant, arg).dirs;
    forall t, n | t in d && n in d[t]
      ensures n != "" && '/' !in n
    {
      if t != tenant || n != name {
        assert t in dirs && n in dirs[t];
      }
    }
  }

  lemma DropKeepsNamesWellFormed(dirs: Dirs, tenant: string, arg: string)
    requires WellNamed(dirs)
    ensures WellNamed(DropSpec(dirs, tenant, arg).dirs)
  {
    var d := DropSpec(dirs, tenant, arg).dirs;
    forall t, n | t in d && n in d[t]
      ensures n != "" && '/' !in n
    {
      assert t in dirs && n in dirs[t];
    }
  }

  /** Writing into one existing store leaves every directory's names alone. */
  lemma StoreWriteKeepsNamesWellFormed(dirs: Dirs, tenant: string, name: string, db: Database)
    requires WellNamed(dirs) && tenant in dirs && name in dirs[tenant]
    ensures WellNamed(dirs[tenant := dirs[tenant][name := db]])
  {
    var d := dirs[tenant := dirs[tenant][name := db]];
    forall t, n | t in d && n in d[t]
      ensures n != "" && '/' !in n
    {
      if t == tenant {
        assert d[t].Keys == dirs[tenant].Keys;
      }
      assert t in dirs && n in dirs[t];
    }
  }

  lemma ManagerKeepsNamesWellFormed(dirs: Dirs, tenant: string, verb: Verb, arg: string)
    requires WellNamed(dirs)
    ensures WellNamed(ManagerSpec(dirs, tenant, verb, arg).dirs)
  {
    if verb == Post {
      CreateKeepsNamesWellFormed(dirs, tenant, arg);
    } else if verb == Delete {
      DropKeepsNamesWellFormed(dirs, tenant, arg);
    }
  }

  lemma EntryKeepsNamesWellFormed(dirs: Dirs, tenant: string, verb: Verb, arg: string, body: Json)
    requires WellNamed(dirs)
    ensures WellNamed(EntrySpec(dirs, tenant, verb, arg, body).dirs)
  {
    var name := DatabaseName(arg);
    if OpenStore(dirs, tenant, name).Some? {
      var db := dirs[tenant][name];
      var pair := PairOf(body);
      var key := KeyOf(body);
      if verb == Put && pair.Some? {
        StoreWriteKeepsNamesWellFormed(dirs, tenant, name, PutIfDifferent(db, pair.value.0, pair.value.1).0);
      } else if verb == Post && pair.Some? {
        StoreWriteKeepsNamesWellFormed(dirs, tenant, name, db[pair.value.0 := pair.value.1]);
      } else if verb == Delete && key.Some? {
        StoreWriteKeepsNamesWellFormed(dirs, tenant, name, db - {key.value});
      }
    }
  }

  /** No request puts an empty name or a name with "/" into a tenant directory. */
  lemma ServeKeepsNamesWellFormed(config: Config, root: string, dirs: Dirs, req: Request)
    requires WellNamed(dirs)
    ensures WellNamed(ServeSpec(config, root, dirs, req).dirs)
  {
    var route := RouteOf(root, req.url);
    var verdict := Authenticate(config, Env(req.verb, req.idkey, req.apikey));
    if !route.Unrouted? && verdict.Granted? && HandlerOf(route, VerbOf(req.verb)).Some? {
      var verb := HandlerOf(route, VerbOf(req.verb));
      if route.ToManager? {
        ManagerKeepsNamesWellFormed(dirs, verdict.idkey, verb.value, route.arg);
      } else {
        EntryKeepsNamesWellFormed(dirs, verdict.idkey, verb.value, route.arg, req.body);
      }
    }
  }

  /** GET, HEAD and OPTIONS change no directory and write nothing, whoever
      sends them. */
  lemma ReadsChangeNothing(config: Config, root: string, dirs: Dirs, req: Request)
    requires VerbOf(req.verb) in {Some(Get), Some(Head), Some(Options)}
    ensures ServeSpec(config, root, dirs, req).dirs == dirs
    ensures ServeSpec(config, root, dirs, req).writes == 0
  {
  }

  /** `RestNoSql` has no HEAD: web.py runs its GET instead, after the gate
      has checked HEAD against the caller's methods. */
  lemma HeadOnEntryRunsGet(config: Config, root: string, dirs: Dirs, req: Request)
    requires RouteOf(root, req.url).ToDatabase? && req.verb == "HEAD"
    requires Authenticate(config, Env(req.verb, req.idkey, req.apikey)).Granted?
    ensures var idkey := Authenticate(config, Env(req.verb, req.idkey, req.apikey)).idkey;
      ServeSpec(config, root, dirs, req) ==
        Step(dirs, GetSpec(dirs, idkey, RouteOf(root, req.url).arg, req.body), 0)
  {
  }

  /** A request the gate refuses gets 401 (500 when the grant has no
      "methods" entry) and changes nothing. */
  lemma RefusedRequestsChangeNothing(config: Config, root: string, dirs: Dirs, req: Request)
    requires !RouteOf(root, req.url).Unrouted?
    requires !Authenticate(config, Env(req.verb, req.idkey, req.apikey)).Granted?
    ensures ServeSpec(config, root, dirs, req).dirs == dirs
    ensures ServeSpec(config, root, dirs, req).writes == 0
    ensures ServeSpec(config, root, dirs, req).resp.status in {StatusUnauthorized, StatusMethodNotAllowed, StatusServerError}
    ensures Authenticate(config, Env(req.verb, req.idkey, req.apikey)).Denied? ==>
      ServeSpec(config, root, dirs, req).resp.status != StatusOk
  {
  }

  /** The only statuses a handler answers with. */
  ghost predicate KnownStatus(status: int)
  {
    status in {StatusOk, StatusUnauthorized, StatusNotFound, StatusMethodNotAllowed, StatusServerError}
  }

  lemma ManagerAnswersKnownStatus(dirs: Dirs, tenant: string, verb: Verb, arg: string)
    ensures KnownStatus(ManagerSpec(dirs, tenant, verb, arg).resp.status)
  {
    match verb
    case Get =>
    case Options =>
    case Post =>
    case Head =>
    case Delete =>
    case _ =>
  }

  lemma EntryAnswersKnownStatus(dirs: Dirs, tenant: string, verb: Verb, arg: string, body: Json)
    ensures KnownStatus(EntrySpec(dirs, tenant, verb, arg, body).resp.status)
  {
    match verb
    case Get =>
    case Put =>
    case Post =>
    case Options =>
    case Delete =>
    case _ =>
  }

  /** Every request is answered with 200, 401, 404, 405 or 500. */
  lemma ServeAnswersKnownStatus(config: Config, root: string, dirs: Dirs, req: Request)
    ensures KnownStatus(ServeSpec(config, root, dirs, req).resp.status)
  {
    var route := RouteOf(root, req.url);
    if !route.Unrouted? && HandlerOf(route, VerbOf(req.verb)).Some? {
      var verb := HandlerOf(route, VerbOf(req.verb));
      var verdict := Authenticate(config, Env(req.verb, req.idkey, req.apikey));
      if verdict.Granted? {
        if route.ToManager? {
          ManagerAnswersKnownStatus(dirs, verdict.idkey, verb.value, route.arg);
        } else {
          EntryAnswersKnownStatus(dirs, verdict.idkey, verb.value, route.arg, req.body);
        }
      }
    }
  }

  /** A handler run for `tenant` changes no other tenant directory and
      adds no directory but the tenant's own. */
  ghost predicate OnlyTouches(dirs: Dirs, after: Dirs, tenant: string)
  {
    && (forall t :: t in dirs && t != tenant ==> t in after && after[t] == dirs[t])
    && (forall t :: t in after && t !in dirs ==> t == tenant)
  }

  lemma ReplaceOnlyTouches(dirs: Dirs, tenant: string, t: Tenant)
    ensures OnlyTouches(dirs, dirs[tenant := t], tenant)
  {
  }

  lemma ManagerOnlyTouchesTenant(dirs: Dirs, tenant: string, verb: Verb, arg: string)
    ensures OnlyTouches(dirs, ManagerSpec(dirs, tenant, verb, arg).dirs, tenant)
  {
    var s := ManagerSpec(dirs, tenant, verb, arg);
    if s.dirs != dirs {
      assert tenant in s.dirs;
      ReplaceOnlyTouches(dirs, tenant, s.dirs[tenant]);
      assert s.dirs == dirs[tenant := s.dirs[tenant]];
    }
  }

  lemma EntryOnlyTouchesTenant(dirs: Dirs, tenant: string, verb: Verb, arg: string, body: Json)
    ensures OnlyTouches(dirs, EntrySpec(dirs, tenant, verb, arg, body).dirs, tenant)
  {
    var name := DatabaseName(arg);
    if OpenStore(dirs, tenant, name).Some? {
      var db := dirs[tenant][name];
      var pair := PairOf(body);
      var key := KeyOf(body);
      if verb == Put && pair.Some? {
        ReplaceOnlyTouches(dirs, tenant, dirs[tenant][name := PutIfDifferent(db, pair.value.0, pair.value.1).0]);
      } else if verb == Post && pair.Some? {
        ReplaceOnlyTouches(dirs, tenant, dirs[tenant][name := db[pair.value.0 := pair.value.1]]);
      } else if verb == Delete && key.Some? && key.value in db {
        ReplaceOnlyTouches(dirs, tenant, dirs[tenant][name := db - {key.value}]);
      }
    }
  }

  /** Every handler works inside the directory of the id key the gate let
      through: every other tenant directory is left exactly as it was, and
      no directory appears for anybody else. */
  lemma TenantIsolation(config: Config, root: string, dirs: Dirs, req: Request)
    ensures var s := ServeSpec(config, root, dirs, req);
      && (forall t :: t in dirs && req.idkey != Some(t) ==> t in s.dirs && s.dirs[t] == dirs[t])
      && (forall t :: t in s.dirs && t !in dirs ==> req.idkey == Some(t) && t in config)
  {
    var route := RouteOf(root, req.url);
    var verdict := Authenticate(config, Env(req.verb, req.idkey, req.apikey));
    if !route.Unrouted? && verdict.Granted? && HandlerOf(route, VerbOf(req.verb)).Some? {
      var verb := HandlerOf(route, VerbOf(req.verb));
      if route.ToManager? {
        ManagerOnlyTouchesTenant(dirs, verdict.idkey, verb.value, route.arg);
      } else {
        EntryOnlyTouchesTenant(dirs, verdict.idkey, verb.value, route.arg, req.body);
      }
    }
  }

  /** Creating a database twice is the same as creating it once, both calls
      answer 200 with the name, and an existing database keeps its entries. */
  lemma CreateIsIdempotent(dirs: Dirs, tenant: string, arg: string)
    ensures var once := CreateSpec(dirs, tenant, arg);
      && CreateSpec(once.dirs, tenant, arg) == once
      && once.resp == Response(StatusOk, TextBody(DatabaseName(arg)))
    ensures tenant in dirs && DatabaseName(arg) in dirs[tenant] ==>
      CreateSpec(dirs, tenant, arg).dirs == dirs
    ensures DatabaseName(arg) != "" ==>
      OpenStore(CreateSpec(dirs, tenant, arg).dirs, tenant, DatabaseName(arg)).Some?
  {
  }

  /** HEAD and DELETE of a name not in the listing answer 404 and remove
      nothing; DELETE of a listed name takes it out of the listing and
      leaves the tenant's other databases alone. */
  lemma HeadAndDropFollowTheListing(dirs: Dirs, tenant: string, arg: string)
    requires tenant in dirs
    ensures DatabaseName(arg) !in dirs[tenant] ==>
      && HeadSpec(dirs, tenant, arg).status == StatusNotFound
      && DropSpec(dirs, tenant, arg) == Step(dirs, Response(StatusNotFound, NoBody), 0)
    ensures DatabaseName(arg) in dirs[tenant] ==>
      var after := DropSpec(dirs, tenant, arg).dirs;
      && HeadSpec(dirs, tenant, arg).status == StatusOk
      && HeadSpec(after, tenant, arg).status == StatusNotFound
      && after[tenant].Keys == dirs[tenant].Keys - {DatabaseName(arg)}
      && (forall n :: n in after[tenant] ==> after[tenant][n] == dirs[tenant][n])
      && JString(DatabaseName(arg)) !in ListSpec(after, tenant).body.value.items
  {
    var name := DatabaseName(arg);
    if name in dirs[tenant] {
      var after := DropSpec(dirs, tenant, arg).dirs;
      var names := SortedSet(after[tenant].Keys);
      forall i | 0 <= i < |names|
        ensures Names(names).items[i] != JString(name)
      {
        assert names[i] in after[tenant];
      }
    }
  }

  /** PUT leaves the key mapped to a value Python finds equal to the
      submitted one and every other key alone; the store is written, with
      exactly the submitted value, iff the stored value was not equal to it.
      A value already stored is replaced, not merged with the new one. */
  lemma PutReplacesWithoutMerging(dirs: Dirs, tenant: string, arg: string, key: string, value: Json)
    requires OpenStore(dirs, tenant, DatabaseName(arg)).Some?
    ensures var s := PutSpec(dirs, tenant, arg, JArray([JString(key), value]));
      var before := dirs[tenant][DatabaseName(arg)];
      var after := s.dirs[tenant][DatabaseName(arg)];
      && s.resp.status == StatusOk
      && (s.writes == 0 <==> key in before && PyEq(before[key], value))
      && after == (if s.writes == 0 then before else before[key := value])
      && key in after && PyEq(after[key], value)
      && GetSpec(s.dirs, tenant, arg, JString(key)) == Response(StatusOk, JsonBody(after[key]))
  {
  }

  /** Python's `!=` is the test: a key holding 1 that receives `true` by PUT
      is not written, and GET still answers 1. */
  lemma PutKeepsPythonEqualValue()
    ensures var dirs: Dirs := map["t" := map["d" := map["k" := JNumber(1)]]];
      var s := PutSpec(dirs, "t", "d/", JArray([JString("k"), JBool(true)]));
      && s.writes == 0 && s.dirs == dirs
      && GetSpec(s.dirs, "t", "d/", JString("k")) == Response(StatusOk, JsonBody(JNumber(1)))
  {
    NameOfHandlePath("d");
    var dirs: Dirs := map["t" := map["d" := map["k" := JNumber(1)]]];
    assert PyEq(JNumber(1), JBool(true));
    assert PutIfDifferent(dirs["t"]["d"], "k", JBool(true)).0 == dirs["t"]["d"];
    assert dirs["t"]["d" := dirs["t"]["d"]] == dirs["t"];
    assert dirs["t" := dirs["t"]] == dirs;
  }

  /** The union the PUT handler's comment describes does not happen: a key
      holding ["x"] that receives ["y"] ends up holding ["y"] alone. */
  lemma PutDoesNotUnite()
    ensures var dirs: Dirs := map["t" := map["d" := map["k" := JArray([JString("x")])]]];
      var s := PutSpec(dirs, "t", "d/", JArray([JString("k"), JArray([JString("y")])]));
      s.dirs["t"]["d"]["k"] == JArray([JString("y")])
  {
    NameOfHandlePath("d");
  }

  /** POST overwrites unconditionally and a following GET returns the value;
      GET of an absent key answers 404. */
  lemma PostThenGet(dirs: Dirs, tenant: string, arg: string, key: string, value: Json)
    requires OpenStore(dirs, tenant, DatabaseName(arg)).Some?
    ensures var s := PostSpec(dirs, tenant, arg, JArray([JString(key), value]));
      && s.resp.status == StatusOk
      && s.writes == 1
      && GetSpec(s.dirs, tenant, arg, JString(key)) == Response(StatusOk, JsonBody(value))
    ensures key !in dirs[tenant][DatabaseName(arg)] ==>
      GetSpec(dirs, tenant, arg, JString(key)).status == StatusNotFound
  {
  }

  /** Key-level DELETE removes exactly that key; an absent key answers 404
      and leaves the store as it was. OPTIONS lists exactly the stored keys. */
  lemma DeleteAndOptions(dirs: Dirs, tenant: string, arg: string, key: string)
    requires OpenStore(dirs, tenant, DatabaseName(arg)).Some?
    ensures var db := dirs[tenant][DatabaseName(arg)];
      var s := DeleteSpec(dirs, tenant, arg, JString(key));
      && (key in db ==> s.resp.status == StatusOk && s.dirs[tenant][DatabaseName(arg)] == db - {key})
      && (key !in db ==> s.resp.status == StatusNotFound && s.dirs == dirs)
    ensures var items := KeysSpec(dirs, tenant, arg).body.value.items;
      forall k :: JString(k) in items <==> k in dirs[tenant][DatabaseName(arg)]
  {
    var db := dirs[tenant][DatabaseName(arg)];
    forall k
      ensures JString(k) in KeysSpec(dirs, tenant, arg).body.value.items <==> k in db
    {
      NamesMembers(SortedSet(db.Keys), k);
    }
  }

  /** A JSON listing of names holds exactly those names. */
  lemma NamesMembers(names: seq<string>, k: string)
    ensures JString(k) in Names(names).items <==> k in names
  {
    var items := Names(names).items;
    if JString(k) in items {
      var i :| 0 <= i < |items| && items[i] == JString(k);
      assert names[i] == k;
    }
    if k in names {
      var i :| 0 <= i < |names| && names[i] == k;
      assert items[i] == JString(k);
    }
  }

  lemma KeysOfEmptyStore(dirs: Dirs, tenant: string, arg: string)
    requires OpenStore(dirs, tenant, DatabaseName(arg)) == Some(map[])
    ensures KeysSpec(dirs, tenant, arg) == Response(StatusOk, JsonBody(JArray([])))
  {
    assert SortedSet({}) == [];
  }

  lemma KeysOfSingletonStore(dirs: Dirs, tenant: string, arg: string, key: string, value: Json)
    requires OpenStore(dirs, tenant, DatabaseName(arg)) == Some(map[key := value])
    ensures KeysSpec(dirs, tenant, arg) == Response(StatusOk, JsonBody(JArray([JString(key)])))
  {
    var r := SortedSet(map[key := value].Keys);
    assert map[key := value].Keys == {key};
    assert |r| == 1 && r[0] in r;
    assert r == [key];
    assert Names([key]).items == [JString(key)];
  }

  /** The store's round trip through a tenant's eyes: create "d", list its
      keys (none), POST "k" = ["x"], list ("k"), GET "k" (["x"]), PUT
      ["x", "y"], DELETE "k", GET "k" (404). */
  lemma Scenario(dirs: Dirs, tenant: string)
    requires tenant in dirs && "d" !in dirs[tenant]
    ensures var x := JArray([JString("x")]);
      var xy := JArray([JString("x"), JString("y")]);
      var s1 := CreateSpec(dirs, tenant, "d").dirs;
      var s2 := PostSpec(s1, tenant, "d/", JArray([JString("k"), x])).dirs;
      var s3 := PutSpec(s2, tenant, "d/", JArray([JString("k"), xy])).dirs;
      var s4 := DeleteSpec(s3, tenant, "d/", JString("k")).dirs;
      && KeysSpec(s1, tenant, "d/") == Response(StatusOk, JsonBody(JArray([])))
      && KeysSpec(s2, tenant, "d/") == Response(StatusOk, JsonBody(JArray([JString("k")])))
      && GetSpec(s2, tenant, "d/", JString("k")) == Response(StatusOk, JsonBody(x))
      && GetSpec(s3, tenant, "d/", JString("k")) == Response(StatusOk, JsonBody(xy))
      && GetSpec(s4, tenant, "d/", JString("k")).status == StatusNotFound
  {
    NameOfHandlePath("d");
    assert DatabaseName("d") == "d" by {
      var n := DatabaseName("d");
      assert "d"[0] != '/';
      assert n <= "d";
    }
    var x := JArray([JString("x")]);
    var xy := JArray([JString("x"), JString("y")]);
    var s1: Dirs := CreateSpec(dirs, tenant, "d").dirs;
    assert OpenStore(s1, tenant, "d") == Some(map[]);
    KeysOfEmptyStore(s1, tenant, "d/");
    var s2: Dirs := PostSpec(s1, tenant, "d/", JArray([JString("k"), x])).dirs;
    PostThenGet(s1, tenant, "d/", "k", x);
    assert OpenStore(s2, tenant, "d") == Some(map[]["k" := x]);
    KeysOfSingletonStore(s2, tenant, "d/", "k", x);
    var s3: Dirs := PutSpec(s2, tenant, "d/", JArray([JString("k"), xy])).dirs;
    PutReplacesWithoutMerging(s2, tenant, "d/", "k", xy);
    DeleteThenGet(s3, tenant, "d/", "k");
  }

  /** After DELETE of a key, GET of that key answers 404. */
  lemma DeleteThenGet(dirs: Dirs, tenant: string, arg: string, key: string)
    requires OpenStore(dirs, tenant, DatabaseName(arg)).Some?
    ensures GetSpec(DeleteSpec(dirs, tenant, arg, JString(key)).dirs, tenant, arg, JString(key)).status == StatusNotFound
  {
    var name := DatabaseName(arg);
    var after := DeleteSpec(dirs, tenant, arg, JString(key)).dirs;
    assert OpenStore(after, tenant, name).Some?;
    assert key !in after[tenant][name];
  }

  // ---------------------------------------------------------------------
  // The state: the storage directory, changed in place by the handlers

  class TenantStore {
    const config: Config
    const root: string
    var dirs: Dirs
    /** Values written into store files so far. */
    var writes: nat

    ghost predicate Valid()
      reads this
    {
      WellNamed(dirs)
    }

    constructor (config: Config, root: string, dirs: Dirs)
      requires WellNamed(dirs)
      ensures Valid()
      ensures this.config == config && this.root == root && this.dirs == dirs && writes == 0
    {
      this.config := config;
      this.root := root;
      this.dirs := dirs;
      writes := 0;
    }

    /** RestNoSqlManager.GET / OPTIONS */
    method ListDatabases(tenant: string) returns (resp: Response)
      ensures resp == ListSpec(dirs, tenant)
    {
      if tenant !in dirs {
        return Response(StatusServerError, NoBody);
      }
      var names := SortStrings(dirs[tenant].Keys);
      resp := Response(StatusOk, JsonBody(Names(names)));
    }

    /** RestNoSqlManager.POST */
    method CreateDatabase(tenant: string, arg: string) returns (resp: Response)
      modifies this
      ensures var s := CreateSpec(old(dirs), tenant, arg);
        dirs == s.dirs && resp == s.resp && writes == old(writes)
    {
      var name := DatabaseName(arg);
      if tenant !in dirs {
        dirs := dirs[tenant := map[]];
      }
      if name != "" && name !in dirs[tenant] {
        dirs := dirs[tenant := dirs[tenant][name := map[]]];
      }
      resp := Response(StatusOk, TextBody(name));
    }

    /** RestNoSqlManager.HEAD */
    method HasDatabase(tenant: string, arg: string) returns (resp: Response)
      ensures resp == HeadSpec(dirs, tenant, arg)
    {
      if tenant !in dirs {
        return Response(StatusServerError, NoBody);
      }
      var name := DatabaseName(arg);
      if name !in dirs[tenant] {
        resp := Response(StatusNotFound, NoBody);
      } else {
        resp := Response(StatusOk, NoBody);
      }
    }

    /** RestNoSqlManager.DELETE */
    method DropDatabase(tenant: string, arg: string) returns (resp: Response)
      modifies this
      ensures var s := DropSpec(old(dirs), tenant, arg);
        dirs == s.dirs && resp == s.resp && writes == old(writes)
    {
      if tenant !in dirs {
        return Response(StatusServerError, NoBody);
      }
      var name := DatabaseName(arg);
      if name !in dirs[tenant] {
        resp := Response(StatusNotFound, NoBody);
      } else {
        dirs := dirs[tenant := dirs[tenant] - {name}];
        resp := Response(StatusOk, NoBody);
      }
    }

    /** RestNoSql.GET */
    method GetValue(tenant: string, arg: string, body: Json) returns (resp: Response)
      ensures resp == GetSpec(dirs, tenant, arg, body)
    {
      var name := DatabaseName(arg);
      if !body.JString? || tenant !in dirs || name !in dirs[tenant] {
        return Response(StatusServerError, JsonBody(JNull));
      }
      var db := dirs[tenant][name];
      if body.s in db {
        resp := Response(StatusOk, JsonBody(db[body.s]));
      } else {
        resp := Response(StatusNotFound, JsonBody(JNull));
      }
    }

    /** RestNoSql.PUT */
    method PutValue(tenant: string, arg: string, body: Json) returns (resp: Response)
      modifies this
      ensures var s := PutSpec(old(dirs), tenant, arg, body);
        dirs == s.dirs && resp == s.resp && writes == old(writes) + s.writes
    {
      var pair := PairOf(body);
      var name := DatabaseName(arg);
      if pair.None? || tenant !in dirs || name !in dirs[tenant] {
        return Response(StatusServerError, NoBody);
      }
      var (key, value) := pair.value;
      var db := dirs[tenant][name];
      if key in db {
        if !PyEq(db[key], value) {
          dirs := dirs[tenant := dirs[tenant][name := db[key := value]]];
          writes := writes + 1;
        } else {
          assert dirs[tenant][name := db] == dirs[tenant];
        }
      } else {
        dirs := dirs[tenant := dirs[tenant][name := db[key := value]]];
        writes := writes + 1;
      }
      resp := Response(StatusOk, NoBody);
    }

    /** RestNoSql.POST */
    method PostValue(tenant: string, arg: string, body: Json) returns (resp: Response)
      modifies this
      ensures var s := PostSpec(old(dirs), tenant, arg, body);
        dirs == s.dirs && resp == s.resp && writes == old(writes) + s.writes
    {
      var pair := PairOf(body);
      var name := DatabaseName(arg);
      if pair.None? || tenant !in dirs || name !in dirs[tenant] {
        return Response(StatusServerError, NoBody);
      }
      var (key, value) := pair.value;
      dirs := dirs[tenant := dirs[tenant][name := dirs[tenant][name][key := value]]];
      writes := writes + 1;
      resp := Response(StatusOk, NoBody);
    }

    /** RestNoSql.OPTIONS */
    method ListKeys(tenant: string, arg: string) returns (resp: Response)
      ensures resp == KeysSpec(dirs, tenant, arg)
    {
      var name := DatabaseName(arg);
      if tenant !in dirs || name !in dirs[tenant] {
        return Response(StatusServerError, JsonBody(JNull));
      }
      var keys := SortStrings(dirs[tenant][name].Keys);
      resp := Response(StatusOk, JsonBody(Names(keys)));
    }

    /** RestNoSql.DELETE */
    method DeleteValue(tenant: string, arg: string, body: Json) returns (resp: Response)
      modifies this
      ensures var s := DeleteSpec(old(dirs), tenant, arg, body);
        dirs == s.dirs && resp == s.resp && writes == old(writes)
    {
      var name := DatabaseName(arg);
      if !body.JString? || tenant !in dirs || name !in dirs[tenant] {
        return Response(StatusServerError, NoBody);
      }
      var key := body.s;
      if key !in dirs[tenant][name] {
        resp := Response(StatusNotFound, NoBody);
      } else {
        dirs := dirs[tenant := dirs[tenant][name := dirs[tenant][name] - {key}]];
        resp := Response(StatusOk, NoBody);
      }
    }

    /** One request: route, gate, handler. */
    method Serve(req: Request) returns (resp: Response)
      requires Valid()
      modifies this
      ensures Valid()
      ensures var s := ServeSpec(config, root, old(dirs), req);
        dirs == s.dirs && resp == s.resp && writes == old(writes) + s.writes
    {
      ServeKeepsNamesWellFormed(config, root, dirs, req);
      var route := RouteOf(root, req.url);
      if route.Unrouted? {
        return Response(StatusNotFound, NoBody);
      }
      var verb := HandlerOf(route, VerbOf(req.verb));
      if verb.None? {
        return Response(StatusMethodNotAllowed, NoBody);
      }
      var verdict := Authenticate(config, Env(req.verb, req.idkey, req.apikey));
      if verdict.Denied? {
        return Response(StatusUnauthorized, NoBody);
      } else if verdict.Faulted? {
        return Response(StatusServerError, NoBody);
      }
      var tenant, arg := verdict.idkey, route.arg;
      if route.ToManager? {
        match verb.value {
          case Get => resp := ListDatabases(tenant);
          case Options => resp := ListDatabases(tenant);
          case Post => resp := CreateDatabase(tenant, arg);
          case Head => resp := HasDatabase(tenant, arg);
          case Delete => resp := DropDatabase(tenant, arg);
          case _ => resp := Response(StatusOk, NoBody);
        }
      } else {
        match verb.value {
          case Get => resp := GetValue(tenant, arg, req.body);
          case Put => resp := PutValue(tenant, arg, req.body);
          case Post => resp := PostValue(tenant, arg, req.body);
          case Options => resp := ListKeys(tenant, arg);
          case Delete => resp := DeleteValue(tenant, arg, req.body);
          case _ => resp := Response(StatusOk, NoBody);
        }
      }
    }
  }
}
