/** The client side of the store: a manager handle that creates, lists,
    tests and drops databases, and a database handle that looks like a
    dictionary and keeps a lazily filled copy of the database's key list.
    Requests are delivered to a TenantStore object; the HTTP session is not
    modelled. */
module Client {
  import opened Common
  import opened Gate
  import opened Server

  /** The exceptions a caller of the client sees. */
  datatype Failure = KeyError | IOError | AttributeError | ValueError

  datatype Result<T> = Ok(value: T) | Err(failure: Failure)

  /** What `_request` does with a status code: return the response, raise,
      or run off its end and return None. */
  datatype Reading = Returned | RaisesKeyError | RaisesIOError | FallsThrough

  function ReadStatus(status: int): (r: Reading)
    ensures r == Returned <==> 200 <= status <= 299
    ensures r == RaisesKeyError <==> 400 <= status <= 499
    ensures r == RaisesIOError <==> 500 <= status <= 599
  {
    if 199 < status < 300 then Returned
    else if 399 < status < 500 then RaisesKeyError
    else if 499 < status < 600 then RaisesIOError
    else FallsThrough
  }

  /** The outcome of `_request` for a response: the response, None, or the
      exception it raises. */
  function Receive(resp: Response): Result<Option<Response>>
  {
    match ReadStatus(resp.status)
    case Returned => Ok(Some(resp))
    case RaisesKeyError => Err(KeyError)
    case RaisesIOError => Err(IOError)
    case FallsThrough => Ok(None)
  }

  /** `res.json()` on what `_request` returned. */
  function JsonOf(r: Result<Option<Response>>): Result<Json>
  {
    match r
    case Err(f) => Err(f)
    case Ok(None) => Err(AttributeError)
    case Ok(Some(resp)) => if resp.body.JsonBody? then Ok(resp.body.value) else Err(ValueError)
  }

  /** A JSON array of strings as a list of names. */
  function NamesOf(j: Json): (r: Option<seq<string>>)
    ensures r.Some? ==> Names(r.value) == j
  {
    if j.JArray? && forall i :: 0 <= i < |j.items| ==> j.items[i].JString? then
      var ns := seq(|j.items|, i requires 0 <= i < |j.items| => j.items[i].s);
      assert Names(ns).items == j.items;
      Some(ns)
    else None
  }

  lemma NamesRoundTrip(ns: seq<string>)
    ensures NamesOf(Names(ns)) == Some(ns)
  {
    var j := Names(ns);
    assert NamesOf(j).Some?;
    assert NamesOf(j).value == ns;
  }

  function NamesFrom(r: Result<Json>): Result<seq<string>>
  {
    match r
    case Err(f) => Err(f)
    case Ok(j) => if NamesOf(j).Some? then Ok(NamesOf(j).value) else Err(ValueError)
  }

  /** `"/".join((url, "manager", path))` */
  function ManagerUrl(url: string, path: string): string
  {
    Join([url, "manager", path], '/')
  }

  /** The url a database handle is opened with. */
  function DatabaseUrl(url: string, name: string): string
  {
    url + "/database/" + name
  }

  /** `"/".join((url, ""))`: where a database handle sends its requests. */
  function HandleRequestUrl(url: string): string
  {
    Join([url, ""], '/')
  }

  /** A manager request for `path` reaches the manager with `path` as its
      argument when the client's url is the server's mount point. */
  lemma ManagerUrlRoutes(root: string, path: string)
    ensures RouteOf(root, ManagerUrl(root, path)) == ToManager(path)
  {
    var u := ManagerUrl(root, path);
    assert [root, "manager", path][1..] == ["manager", path];
    assert ["manager", path][1..] == [path];
    assert Join(["manager", path], '/') == "manager" + ['/'] + path;
    assert u == root + ['/'] + ("manager" + ['/'] + path);
    assert root + ['/'] + ("manager" + ['/'] + path) == root + "/manager/" + path;
    var r := RouteOf(root, u);
    assert root + "/manager/" <= u;
    assert u[|root| + 9..] == path;
    assert (root + "/manager/" + r.arg)[|root| + 9..] == r.arg;
  }

  /** A handle opened on `name` sends its requests to the database route with
      argument name + "/", and the server reads the name back from it. */
  lemma HandleUrlRoutes(root: string, name: string)
    requires '/' !in name
    ensures RouteOf(root, HandleRequestUrl(DatabaseUrl(root, name))) == ToDatabase(name + "/")
    ensures DatabaseName(name + "/") == name
  {
    var u := HandleRequestUrl(DatabaseUrl(root, name));
    assert [DatabaseUrl(root, name), ""][1..] == [""];
    assert Join([""], '/') == "";
    assert u == DatabaseUrl(root, name) + ['/'] + "";
    assert DatabaseUrl(root, name) + ['/'] + "" == root + "/database/" + (name + "/");
    var r := RouteOf(root, u);
    assert root + "/database/" <= u;
    assert (root + "/manager/")[|root| + 1] == 'm';
    assert u[|root| + 1] == 'd';
    assert u[|root| + 10..] == name + "/";
    assert (root + "/database/" + r.arg)[|root| + 10..] == r.arg;
    NameOfHandlePath(name);
  }

  /** Every response the server gives is one `_request` returns or raises
      on: 200 is returned, 401/404/405 raise KeyError and 500 raises
      IOError; none falls through to None. */
  lemma ServerAnswersAreRead(config: Config, root: string, dirs: Dirs, req: Request)
    ensures var st := ServeSpec(config, root, dirs, req).resp.status;
      && (st == StatusOk ==> Receive(ServeSpec(config, root, dirs, req).resp).Ok?)
      && (st in {StatusUnauthorized, StatusNotFound, StatusMethodNotAllowed} ==>
            Receive(ServeSpec(config, root, dirs, req).resp) == Err(KeyError))
      && (st == StatusServerError ==> Receive(ServeSpec(config, root, dirs, req).resp) == Err(IOError))
      && Receive(ServeSpec(config, root, dirs, req).resp) != Ok(None)
  {
    ServeAnswersKnownStatus(config, root, dirs, req);
    KnownStatusIsRead(ServeSpec(config, root, dirs, req).resp);
  }

  /** How `_request` reads each status the server can send. */
  lemma KnownStatusIsRead(resp: Response)
    requires KnownStatus(resp.status)
    ensures resp.status == StatusOk ==> Receive(resp) == Ok(Some(resp))
    ensures resp.status in {StatusUnauthorized, StatusNotFound, StatusMethodNotAllowed} ==> Receive(resp) == Err(KeyError)
    ensures resp.status == StatusServerError ==> Receive(resp) == Err(IOError)
    ensures Receive(resp) != Ok(None)
  {
  }

  // ---------------------------------------------------------------------
  // The key cache and the database it stands for

  ghost predicate NoDuplicates(s: seq<string>)
  {
    forall i, j :: 0 <= i < j < |s| ==> s[i] != s[j]
  }

  /** A key list is an exact copy of a store's keys: each key once. */
  ghost predicate Mirrors(keys: seq<string>, db: Database)
  {
    (forall k :: k in keys <==> k in db) && NoDuplicates(keys)
  }

  /** The position of the first occurrence of `x`. */
  function IndexOf(s: seq<string>, x: string): (i: nat)
    requires x in s
    ensures i < |s| && s[i] == x && x !in s[..i]
  {
    if s[0] == x then 0 else 1 + IndexOf(s[1..], x)
  }

  /** `list.remove(x)`: the list without the first occurrence of `x`. */
  function RemoveFirst(s: seq<string>, x: string): (r: seq<string>)
    requires x in s
    ensures exists i :: 0 <= i < |s| && s[i] == x && x !in s[..i] && r == s[..i] + s[i + 1..]
    ensures multiset(r) == multiset(s) - multiset{x}
    ensures |r| == |s| - 1
  {
    var i := IndexOf(s, x);
    assert s == s[..i] + [s[i]] + s[i + 1..];
    s[..i] + s[i + 1..]
  }

  /** A fresh listing from the server mirrors the store. */
  lemma ListingMirrors(db: Database)
    ensures Mirrors(SortedSet(db.Keys), db)
  {
    var r := SortedSet(db.Keys);
    forall i, j | 0 <= i < j < |r|
      ensures r[i] != r[j]
    {
      if r[i] == r[j] {
        BelowIrreflexive(r[i]);
      }
    }
  }

  /** Appending a key that is new keeps the copy exact. */
  lemma AppendNewKeyMirrors(keys: seq<string>, db: Database, k: string, v: Json)
    requires Mirrors(keys, db) && k !in db
    ensures Mirrors(keys + [k], db[k := v])
  {
  }

  /** Cutting position `i` out of a list without duplicates removes
      exactly the key held there. */
  lemma CutMembers(keys: seq<string>, i: nat, x: string)
    requires NoDuplicates(keys) && i < |keys|
    ensures x in keys[..i] + keys[i + 1..] <==> x in keys && x != keys[i]
  {
    var r := keys[..i] + keys[i + 1..];
    if x in r {
      var p :| 0 <= p < |r| && r[p] == x;
      if p < i {
        assert x == keys[p];
      } else {
        assert x == keys[p + 1];
      }
    }
    if x in keys && x != keys[i] {
      var p :| 0 <= p < |keys| && keys[p] == x;
      if p < i {
        assert r[p] == x;
      } else {
        assert r[p - 1] == x;
      }
    }
  }

  /** Cutting a position out of a list without duplicates leaves none. */
  lemma CutKeepsDistinct(keys: seq<string>, i: nat)
    requires NoDuplicates(keys) && i < |keys|
    ensures NoDuplicates(keys[..i] + keys[i + 1..])
  {
    var r := keys[..i] + keys[i + 1..];
    forall a, b | 0 <= a < b < |r|
      ensures r[a] != r[b]
    {
      var a' := if a < i then a else a + 1;
      var b' := if b < i then b else b + 1;
      assert r[a] == keys[a'] && r[b] == keys[b'];
    }
  }

  /** Removing a listed key from an exact copy keeps it exact. */
  lemma RemoveFirstMirrors(keys: seq<string>, db: Database, k: string)
    requires Mirrors(keys, db) && k in db
    ensures Mirrors(RemoveFirst(keys, k), db - {k})
  {
    var i := IndexOf(keys, k);
    var r := RemoveFirst(keys, k);
    assert r == keys[..i] + keys[i + 1..];
    forall x
      ensures x in r <==> x in db - {k}
    {
      CutMembers(keys, i, x);
    }
    CutKeepsDistinct(keys, i);
  }

  /** A key occurs once in a list without duplicates that holds it. */
  lemma OccursOnce(keys: seq<string>, k: string)
    requires NoDuplicates(keys) && k in keys
    ensures multiset(keys)[k] == 1
  {
    var j := IndexOf(keys, k);
    var before, after := keys[..j], keys[j + 1..];
    assert keys == before + [k] + after;
    assert k !in after by {
      forall p | 0 <= p < |after|
        ensures after[p] != k
      {
        assert after[p] == keys[j + 1 + p];
      }
    }
    assert multiset(before)[k] == 0;
    assert multiset(after)[k] == 0;
    assert multiset(keys) == multiset(before) + multiset{k} + multiset(after);
  }

  /** Setting a key the copy already holds appends it a second time. */
  lemma AppendExistingKeyDuplicates(keys: seq<string>, db: Database, k: string, v: Json)
    requires Mirrors(keys, db) && k in db
    ensures !NoDuplicates(keys + [k])
    ensures multiset(keys + [k])[k] == 2
  {
    var i := IndexOf(keys, k);
    assert (keys + [k])[i] == (keys + [k])[|keys|];
    OccursOnce(keys, k);
    assert multiset(keys + [k]) == multiset(keys) + multiset{k};
  }

  /** What `__setitem__` then `__delitem__` of an already listed key leaves
      in the copy: the key is still there although the store no longer
      has it, so `in` on the handle answers True. */
  lemma DuplicateKeySurvivesDelete(keys: seq<string>, db: Database, k: string, v: Json)
    requires Mirrors(keys, db) && k in db
    ensures k in RemoveFirst(keys + [k], k)
    ensures k !in db[k := v] - {k}
  {
    AppendExistingKeyDuplicates(keys, db, k, v);
    var r := RemoveFirst(keys + [k], k);
    assert multiset(r)[k] == 1;
  }

  /** The key list update `__setitem__` was meant to make: add a key only
      when it is not listed yet. */
  function AddKey(keys: seq<string>, k: string): (r: seq<string>)
    ensures k in r
  {
    if k in keys then keys else keys + [k]
  }

  /** With AddKey the copy stays exact whatever key is set. */
  lemma AddKeyMirrors(keys: seq<string>, db: Database, k: string, v: Json)
    requires Mirrors(keys, db)
    ensures Mirrors(AddKey(keys, k), db[k := v])
    ensures Mirrors(RemoveFirst(AddKey(keys, k), k), db[k := v] - {k})
  {
    if k !in db {
      AppendNewKeyMirrors(keys, db, k, v);
    }
    RemoveFirstMirrors(AddKey(keys, k), db[k := v], k);
  }

  // ---------------------------------------------------------------------
  // The manager handle

  class RestNoSqlClient {
    const url: string
    const apikey: Option<string>
    const idkey: Option<string>
    const server: TenantStore

    constructor (server: TenantStore, url: string, apikey: Option<string>, idkey: Option<string>)
      ensures this.server == server && this.url == url && this.apikey == apikey && this.idkey == idkey
    {
      this.server := server;
      this.url := url;
      this.apikey := apikey;
      this.idkey := idkey;
    }

    /** The request `_request(verb, path)` sends: headers whose value is
        None are dropped, and no body. */
    function ManagerRequest(verb: string, path: string): Server.Request
    {
      Server.Request(verb, ManagerUrl(url, path), idkey, apikey, JNull)
    }

    /** What the server does with a request in state `dirs`. */
    ghost function Answer(dirs: Dirs, req: Server.Request): Step
    {
      ServeSpec(server.config, server.root, dirs, req)
    }

    method Request(verb: string, path: string) returns (r: Result<Option<Response>>)
      requires server.Valid()
      modifies server
      ensures server.Valid()
      ensures var s := Answer(old(server.dirs), ManagerRequest(verb, path));
        server.dirs == s.dirs && server.writes == old(server.writes) + s.writes && r == Receive(s.resp)
    {
      var resp := server.Serve(ManagerRequest(verb, path));
      r := Receive(resp);
    }

    method Create(database: string) returns (r: Result<()>)
      requires server.Valid()
      modifies server
      ensures server.Valid()
      ensures var s := Answer(old(server.dirs), ManagerRequest("POST", database));
        && server.dirs == s.dirs && server.writes == old(server.writes) + s.writes
        && (Receive(s.resp).Err? ==> r == Err(Receive(s.resp).failure))
        && (Receive(s.resp).Ok? ==> r == Ok(()))
    {
      var res := Request("POST", database);
      if res.Err? {
        return Err(res.failure);
      }
      r := Ok(());
    }

    /** The database names of the tenant, or the exception. */
    method List() returns (r: Result<seq<string>>)
      requires server.Valid()
      modifies server
      ensures server.Valid()
      ensures server.dirs == old(server.dirs) && server.writes == old(server.writes)
      ensures r == NamesFrom(JsonOf(Receive(Answer(old(server.dirs), ManagerRequest("OPTIONS", "")).resp)))
    {
      ReadsChangeNothing(server.config, server.root, server.dirs, ManagerRequest("OPTIONS", ""));
      var res := Request("OPTIONS", "");
      var j := JsonOf(res);
      r := NamesFrom(j);
    }

    /** Mode "c" creates the database when the listing lacks it; any other
        mode sends nothing. The handle starts without a key list. */
    method Open(database: string, mode: string) returns (r: Result<RestNoSqlDatabase>)
      requires server.Valid()
      modifies server
      ensures server.Valid()
      ensures r.Ok? ==> && fresh(r.value) && r.value.cache == None && r.value.server == server
                        && r.value.url == DatabaseUrl(url, database)
                        && r.value.idkey == idkey && r.value.apikey == apikey
      ensures mode != "c" ==> r.Ok? && server.dirs == old(server.dirs) && server.writes == old(server.writes)
      ensures mode == "c" ==>
        var listed := NamesFrom(JsonOf(Receive(Answer(old(server.dirs), ManagerRequest("OPTIONS", "")).resp)));
        var created := Answer(old(server.dirs), ManagerRequest("POST", database));
        && (listed.Err? ==> r == Err(listed.failure) && server.dirs == old(server.dirs)
                            && server.writes == old(server.writes))
        && (listed.Ok? && database in listed.value ==>
              r.Ok? && server.dirs == old(server.dirs) && server.writes == old(server.writes))
        && (listed.Ok? && database !in listed.value ==>
              && server.dirs == created.dirs && server.writes == old(server.writes) + created.writes
              && (r.Ok? <==> Receive(created.resp).Ok?)
              && (Receive(created.resp).Err? ==> r == Err(Receive(created.resp).failure)))
    {
      if mode == "c" {
        var names := List();
        if names.Err? {
          return Err(names.failure);
        }
        if database !in names.value {
          var made := Create(database);
          if made.Err? {
            return Err(made.failure);
          }
        }
      }
      var db := new RestNoSqlDatabase(server, DatabaseUrl(url, database), apikey, idkey);
      r := Ok(db);
    }

    method Delete(database: string) returns (r: Result<()>)
      requires server.Valid()
      modifies server
      ensures server.Valid()
      ensures var s := Answer(old(server.dirs), ManagerRequest("DELETE", database));
        && server.dirs == s.dirs && server.writes == old(server.writes) + s.writes
        && (Receive(s.resp).Err? ==> r == Err(Receive(s.resp).failure))
        && (Receive(s.resp).Ok? ==> r == Ok(()))
    {
      var res := Request("DELETE", database);
      if res.Err? {
        return Err(res.failure);
      }
      r := Ok(());
    }

    /** `database in self.list()` */
    method Exists(database: string) returns (r: Result<bool>)
      requires server.Valid()
      modifies server
      ensures server.Valid()
      ensures server.dirs == old(server.dirs) && server.writes == old(server.writes)
      ensures var listed := NamesFrom(JsonOf(Receive(Answer(old(server.dirs), ManagerRequest("OPTIONS", "")).resp)));
        && (listed.Err? ==> r == Err(listed.failure))
        && (listed.Ok? ==> r == Ok(database in listed.value))
    {
      var names := List();
      if names.Err? {
        return Err(names.failure);
      }
      r := Ok(database in names.value);
    }
  }

  // ---------------------------------------------------------------------
  // The database handle

  class RestNoSqlDatabase {
    const url: string
    const apikey: Option<string>
    const idkey: Option<string>
    const server: TenantStore
    /** `_keys`: None until the first `keys()`. */
    var cache: Option<seq<string>>

    constructor (server: TenantStore, url: string, apikey: Option<string>, idkey: Option<string>)
      ensures this.server == server && this.url == url && this.apikey == apikey && this.idkey == idkey
      ensures cache == None
    {
      this.server := server;
      this.url := url;
      this.apikey := apikey;
      this.idkey := idkey;
      cache := None;
    }

    /** The request `_request(verb, data=data)` sends: the body is
        `json.dumps(data)`. */
    function HandleRequest(verb: string, data: Json): Server.Request
    {
      Server.Request(verb, HandleRequestUrl(url), idkey, apikey, data)
    }

    ghost function Answer(dirs: Dirs, req: Server.Request): Step
    {
      ServeSpec(server.config, server.root, dirs, req)
    }

    /** What `self[key]` gives against the server's current state. */
    ghost function Fetch(key: string): Result<Json>
      reads server`dirs
    {
      JsonOf(Receive(Answer(server.dirs, HandleRequest("GET", JString(key))).resp))
    }

    method Request(verb: string, data: Json) returns (r: Result<Option<Response>>)
      requires server.Valid()
      modifies server
      ensures server.Valid()
      ensures var s := Answer(old(server.dirs), HandleRequest(verb, data));
        server.dirs == s.dirs && server.writes == old(server.writes) + s.writes && r == Receive(s.resp)
    {
      var resp := server.Serve(HandleRequest(verb, data));
      r := Receive(resp);
    }

    /** What `self._request("OPTIONS").json()` gives in state `dirs`: the
        decoded key listing, or the failure on the way. */
    ghost function Listing(dirs: Dirs): Result<seq<string>>
    {
      NamesFrom(JsonOf(Receive(Answer(dirs, HandleRequest("OPTIONS", JNull)).resp)))
    }

    /** The held list after a call that reads it through `keys()`: the old
        one if there was one, else the listing when it decoded. */
    ghost function Filled(old_cache: Option<seq<string>>, dirs: Dirs): Option<seq<string>>
    {
      if old_cache.Some? then old_cache
      else if Listing(dirs).Ok? then Some(Listing(dirs).value)
      else None
    }

    /** `keys()`: asks the server only while no list is held; afterwards the
        held list is returned as it is, whatever the server now holds. */
    method Keys() returns (r: Result<seq<string>>)
      requires server.Valid()
      modifies this, server
      ensures server.Valid()
      ensures server.dirs == old(server.dirs) && server.writes == old(server.writes)
      ensures old(cache).Some? ==> r == Ok(old(cache).value) && cache == old(cache)
      ensures old(cache).None? ==> r == Listing(old(server.dirs))
      ensures cache == Filled(old(cache), old(server.dirs))
      ensures r.Ok? ==> cache == Some(r.value)
    {
      if cache.None? {
        ReadsChangeNothing(server.config, server.root, server.dirs, HandleRequest("OPTIONS", JNull));
        var res := Request("OPTIONS", JNull);
        var names := NamesFrom(JsonOf(res));
        if names.Err? {
          return Err(names.failure);
        }
        cache := Some(names.value);
      }
      r := Ok(cache.value);
    }

    /** `item in self` */
    method Contains(item: string) returns (r: Result<bool>)
      requires server.Valid()
      modifies this, server
      ensures server.Valid()
      ensures server.dirs == old(server.dirs) && server.writes == old(server.writes)
      ensures cache == Filled(old(cache), old(server.dirs))
      ensures old(cache).Some? ==> r == Ok(item in old(cache).value)
      ensures r.Ok? ==> cache.Some? && r.value == (item in cache.value)
      ensures old(cache).None? ==>
        var listed := Listing(old(server.dirs));
        (listed.Err? ==> r == Err(listed.failure)) && (listed.Ok? ==> r == Ok(item in listed.value))
    {
      var keys := Keys();
      if keys.Err? {
        return Err(keys.failure);
      }
      r := Ok(item in keys.value);
    }

    /** `self[key]` */
    method GetItem(key: string) returns (r: Result<Json>)
      requires server.Valid()
      modifies server
      ensures server.Valid()
      ensures server.dirs == old(server.dirs) && server.writes == old(server.writes)
      ensures r == old(Fetch(key))
    {
      ReadsChangeNothing(server.config, server.root, server.dirs, HandleRequest("GET", JString(key)));
      var res := Request("GET", JString(key));
      r := JsonOf(res);
    }

    /** `self[key] = value`: POST [key, value], then append the key to the
        held list, even when the list already holds it. With no list held
        the append raises AttributeError after the value was sent. */
    method SetItem(key: string, value: Json) returns (r: Result<()>)
      requires server.Valid()
      modifies this, server
      ensures server.Valid()
      ensures var s := Answer(old(server.dirs), HandleRequest("POST", JArray([JString(key), value])));
        && server.dirs == s.dirs && server.writes == old(server.writes) + s.writes
        && (Receive(s.resp).Err? ==> r == Err(Receive(s.resp).failure) && cache == old(cache))
        && (Receive(s.resp).Ok? && old(cache).None? ==> r == Err(AttributeError) && cache == None)
        && (Receive(s.resp).Ok? && old(cache).Some? ==> r == Ok(()) && cache == Some(old(cache).value + [key]))
    {
      var res := Request("POST", JArray([JString(key), value]));
      if res.Err? {
        return Err(res.failure);
      }
      if cache.None? {
        return Err(AttributeError);
      }
      cache := Some(cache.value + [key]);
      r := Ok(());
    }

    /** `del self[key]`: DELETE, then remove the first copy of the key from
        the held list. A 4xx raises KeyError before the list is touched; a
        key the list lacks raises ValueError after the delete went through. */
    method DelItem(key: string) returns (r: Result<()>)
      requires server.Valid()
      modifies this, server
      ensures server.Valid()
      ensures var s := Answer(old(server.dirs), HandleRequest("DELETE", JString(key)));
        && server.dirs == s.dirs && server.writes == old(server.writes) + s.writes
        && (Receive(s.resp).Err? ==> r == Err(Receive(s.resp).failure) && cache == old(cache))
        && (Receive(s.resp).Ok? && old(cache).None? ==> r == Err(AttributeError) && cache == None)
        && (Receive(s.resp).Ok? && old(cache).Some? && key !in old(cache).value ==>
              r == Err(ValueError) && cache == old(cache))
        && (Receive(s.resp).Ok? && old(cache).Some? && key in old(cache).value ==>
              r == Ok(()) && cache == Some(RemoveFirst(old(cache).value, key)))
    {
      var res := Request("DELETE", JString(key));
      if res.Err? {
        return Err(res.failure);
      }
      if cache.None? {
        return Err(AttributeError);
      }
      if key !in cache.value {
        return Err(ValueError);
      }
      cache := Some(RemoveFirst(cache.value, key));
      r := Ok(());
    }

    /** `self[key]` for each key in turn; the first failing lookup ends
        the run. */
    method Lookups(ks: seq<string>) returns (r: Result<seq<Json>>)
      requires server.Valid()
      modifies server
      ensures server.Valid()
      ensures server.dirs == old(server.dirs) && server.writes == old(server.writes)
      ensures r.Ok? ==> |r.value| == |ks| && forall i :: 0 <= i < |ks| ==> Fetch(ks[i]) == Ok(r.value[i])
      ensures r.Err? ==> exists i :: 0 <= i < |ks| && Fetch(ks[i]) == Err(r.failure)
    {
      var out: seq<Json> := [];
      for i := 0 to |ks|
        invariant server.Valid()
        invariant server.dirs == old(server.dirs) && server.writes == old(server.writes)
        invariant |out| == i
        invariant forall j :: 0 <= j < i ==> Fetch(ks[j]) == Ok(out[j])
      {
        var v := GetItem(ks[i]);
        if v.Err? {
          return Err(v.failure);
        }
        out := out + [v.value];
      }
      r := Ok(out);
    }

    /** `items()`, run to the end: each held key with its value, in the
        order of the held list; the first failing lookup ends it. */
    method Items() returns (r: Result<seq<(string, Json)>>)
      requires server.Valid()
      modifies this, server
      ensures server.Valid()
      ensures server.dirs == old(server.dirs) && server.writes == old(server.writes)
      ensures cache == Filled(old(cache), old(server.dirs))
      ensures cache.None? ==> r == Err(Listing(old(server.dirs)).failure)
      ensures r.Ok? ==> cache.Some? && |r.value| == |cache.value|
      ensures r.Ok? ==> forall i :: 0 <= i < |r.value| ==>
        r.value[i].0 == cache.value[i] && Fetch(cache.value[i]) == Ok(r.value[i].1)
      ensures r.Err? && cache.Some? ==>
        exists i :: 0 <= i < |cache.value| && Fetch(cache.value[i]) == Err(r.failure)
    {
      var keys := Keys();
      if keys.Err? {
        return Err(keys.failure);
      }
      var ks := keys.value;
      var vs := Lookups(ks);
      if vs.Err? {
        return Err(vs.failure);
      }
      r := Ok(seq(|ks|, i requires 0 <= i < |ks| => (ks[i], vs.value[i])));
    }

    /** `values()`, run to the end: the value of each held key, in the order
        of the held list; the first failing lookup ends it. */
    method Values() returns (r: Result<seq<Json>>)
      requires server.Valid()
      modifies this, server
      ensures server.Valid()
      ensures server.dirs == old(server.dirs) && server.writes == old(server.writes)
      ensures cache == Filled(old(cache), old(server.dirs))
      ensures cache.None? ==> r == Err(Listing(old(server.dirs)).failure)
      ensures r.Ok? ==> cache.Some? && |r.value| == |cache.value|
      ensures r.Ok? ==> forall i :: 0 <= i < |r.value| ==> Fetch(cache.value[i]) == Ok(r.value[i])
      ensures r.Err? && cache.Some? ==>
        exists i :: 0 <= i < |cache.value| && Fetch(cache.value[i]) == Err(r.failure)
    {
      var keys := Keys();
      if keys.Err? {
        return Err(keys.failure);
      }
      r := Lookups(keys.value);
    }
  }
}
