/** The Idempotency-Key middleware of colab_common: a response cache in front of a handler that is
    left arbitrary. Requests are served one at a time. */
module Idempotency {
  import opened Basics

  // ---------- Data ----------

  type Bytes = seq<bv8>

  datatype Chunk = Raw(bytes: Bytes) | Text(text: string)

  /** An absent user is written as "anonymous" before the key is built. */
  datatype Request = Request(verb: string, path: string, user: string, key: Option<string>, payload: string)

  datatype Arrival = Arrival(at: real, request: Request)

  datatype Header = Header(name: string, value: string)

  /** What the handler answers: a status, headers with lower-case names, and a streamed body. */
  datatype Response = Response(status: int, headers: seq<Header>, body: seq<Chunk>)

  /** What the client receives: the handler's answer as it is, or a JSON document with the headers
      given to it. */
  datatype Reply<+J> = Passed(response: Response) | Json(status: int, body: J, headers: map<string, string>)

  /** The handler and the library functions around it: text encoding, json.loads, and the document
      that wraps a body json.loads rejects. */
  datatype Env<!S, !J> = Env(
    handler: (S, Arrival) -> (S, Response),
    encode: string -> Bytes,
    loads: Bytes -> Option<J>,
    wrapRaw: Bytes -> J)

  /** SHA-256 taken as injective. */
  datatype Digest = Sha256(raw: string)

  datatype Entry<+J> = Entry(status: int, body: J, expiresAt: real)

  /** One served request, for the record: whether the handler ran, its answer if it did, and the
      reply sent. */
  datatype Event<+J> = Event(arrival: Arrival, executed: bool, response: Response, reply: Reply<J>)

  datatype World<+S, +J> = World(state: S, cache: map<Digest, Entry<J>>, log: seq<Event<J>>)

  const TTL := 86400.0
  const REPLAYED: map<string, string> := map["X-Idempotency-Replayed" := "true"]
  const SAFE_METHODS := {"GET", "HEAD", "OPTIONS"}

  // ---------- Specification ----------

  predicate Guarded(r: Request) {
    r.verb !in SAFE_METHODS && r.key.Some? && r.key.value != ""
  }

  function Join(user: string, verb: string, path: string, key: string): string {
    user + ":" + (verb + ":" + (path + ":" + key))
  }

  function CacheKey(r: Request): Digest
    requires r.key.Some?
  {
    Sha256(Join(r.user, r.verb, r.path, r.key.value))
  }

  function Success(status: int): bool {
    200 <= status < 300
  }

  function ChunkBytes<S, J>(env: Env<S, J>, chunk: Chunk): Bytes {
    match chunk
    case Raw(bytes) => bytes
    case Text(text) => env.encode(text)
  }

  function Concat<S, J>(env: Env<S, J>, body: seq<Chunk>): Bytes {
    if body == [] then []
    else Concat(env, body[..|body| - 1]) + ChunkBytes(env, body[|body| - 1])
  }

  /** The document stored for a body and sent in its place. */
  function Document<S, J>(env: Env<S, J>, body: seq<Chunk>): J {
    var bytes := Concat(env, body);
    match env.loads(bytes)
    case Some(json) => json
    case None => env.wrapRaw(bytes)
  }

  function FirstNamed(headers: seq<Header>, name: string): Option<string> {
    if headers == [] then None
    else if headers[0].name == name then Some(headers[0].value)
    else FirstNamed(headers[1..], name)
  }

  /** Headers as a dictionary: of a repeated name only the first value is left. */
  function HeaderDict(headers: seq<Header>): (d: map<string, string>)
    ensures forall name :: name in d <==> FirstNamed(headers, name).Some?
    ensures forall name :: name in d ==> FirstNamed(headers, name) == Some(d[name])
  {
    if headers == [] then map[] else HeaderDict(headers[1..])[headers[0].name := headers[0].value]
  }

  predicate Hit<J>(cache: map<Digest, Entry<J>>, a: Arrival) {
    Guarded(a.request) && CacheKey(a.request) in cache && a.at < cache[CacheKey(a.request)].expiresAt
  }

  function Handle<S, J>(env: Env<S, J>, w: World<S, J>, a: Arrival): World<S, J> {
    var r := a.request;
    if Hit(w.cache, a) then
      var e := w.cache[CacheKey(r)];
      w.(log := w.log + [Event(a, false, Response(e.status, [], []), Json(e.status, e.body, REPLAYED))])
    else
      var (state', response) := env.handler(w.state, a);
      if Guarded(r) && Success(response.status) then
        var document := Document(env, response.body);
        var reply := Json(response.status, document, HeaderDict(response.headers));
        World(state', w.cache[CacheKey(r) := Entry(response.status, document, a.at + TTL)],
              w.log + [Event(a, true, response, reply)])
      else
        World(state', w.cache, w.log + [Event(a, true, response, Passed(response))])
  }

  function Run<S, J>(env: Env<S, J>, w: World<S, J>, arrivals: seq<Arrival>): World<S, J>
    decreases |arrivals|
  {
    if arrivals == [] then w else Run(env, Handle(env, w, arrivals[0]), arrivals[1..])
  }

  /** The handler alone, on a trace of its own. */
  function BareRun<S, J>(env: Env<S, J>, s: S, trace: seq<Arrival>): (S, seq<Response>)
    decreases |trace|
  {
    if trace == [] then (s, [])
    else
      var (s1, before) := BareRun(env, s, trace[..|trace| - 1]);
      var (s2, response) := env.handler(s1, trace[|trace| - 1]);
      (s2, before + [response])
  }

  /** The trace that reached the handler, and what the handler answered on it. */
  function Kept<J>(log: seq<Event<J>>): (seq<Arrival>, seq<Response>)
    decreases |log|
  {
    if log == [] then ([], [])
    else
      var (arrivals, responses) := Kept(log[..|log| - 1]);
      var e := log[|log| - 1];
      if e.executed then (arrivals + [e.arrival], responses + [e.response]) else (arrivals, responses)
  }

  // ---------- Cache keys ----------

  predicate ColonFree(r: Request) {
    ':' !in r.user && ':' !in r.verb && ':' !in r.path
  }

  predicate SameRequestKey(a: Request, b: Request) {
    a.user == b.user && a.verb == b.verb && a.path == b.path && a.key == b.key
  }

  lemma {:induction false} FirstColonSplits(a: string, b: string, x: string, y: string)
    requires ':' !in a && ':' !in b && a + ":" + x == b + ":" + y
    ensures a == b && x == y
  {
    var s, t := a + ":" + x, b + ":" + y;
    assert s[|a|] == ':' && t[|b|] == ':';
    assert forall i :: 0 <= i < |a| ==> s[i] == a[i];
    assert forall i :: 0 <= i < |b| ==> t[i] == b[i];
    assert s[..|a|] == a && t[..|b|] == b;
    assert s[|a| + 1..] == x && t[|b| + 1..] == y;
  }

  /** Colon-free user ids, methods and paths make the cache key as good as the four fields. */
  lemma {:induction false} CacheKeyIsInjective(a: Request, b: Request)
    requires ColonFree(a) && ColonFree(b) && a.key.Some? && b.key.Some?
    ensures CacheKey(a) == CacheKey(b) <==> SameRequestKey(a, b)
  {
    if CacheKey(a) == CacheKey(b) {
      FirstColonSplits(a.user, b.user, a.verb + ":" + (a.path + ":" + a.key.value),
                       b.verb + ":" + (b.path + ":" + b.key.value));
      FirstColonSplits(a.verb, b.verb, a.path + ":" + a.key.value, b.path + ":" + b.key.value);
      FirstColonSplits(a.path, b.path, a.key.value, b.key.value);
    }
  }

  function Colons(s: string): nat {
    if s == "" then 0 else (if s[0] == ':' then 1 else 0) + Colons(s[1..])
  }

  lemma {:induction false} ColonsOfConcat(a: string, b: string)
    ensures Colons(a + b) == Colons(a) + Colons(b)
  {
    if a == "" { assert a + b == b; } else {
      ColonsOfConcat(a[1..], b);
      assert (a + b)[1..] == a[1..] + b;
    }
  }

  lemma {:induction false} NoColons(s: string)
    ensures Colons(s) == 0 <==> ':' !in s
  {
    if s != "" { NoColons(s[1..]); assert s == [s[0]] + s[1..]; }
  }

  lemma {:induction false} ColonsOfJoin(user: string, verb: string, path: string, key: string)
    ensures Colons(Join(user, verb, path, key)) == Colons(user) + Colons(verb) + Colons(path) + Colons(key) + 3
  {
    assert Colons(":") == 1;
    ColonsOfConcat(path + ":", key); ColonsOfConcat(path, ":");
    ColonsOfConcat(verb + ":", path + ":" + key); ColonsOfConcat(verb, ":");
    ColonsOfConcat(user + ":", verb + ":" + (path + ":" + key)); ColonsOfConcat(user, ":");
  }

  /** A request with no colon in any field has its cache key to itself. */
  lemma {:induction false} ColonFreeKeyIsOwn(o: Request, r: Request)
    requires r.key.Some? && ColonFree(r) && ':' !in r.key.value
    requires o.key.Some? && CacheKey(o) == CacheKey(r)
    ensures SameRequestKey(o, r)
  {
    ColonsOfJoin(o.user, o.verb, o.path, o.key.value);
    ColonsOfJoin(r.user, r.verb, r.path, r.key.value);
    NoColons(r.user); NoColons(r.verb); NoColons(r.path); NoColons(r.key.value);
    NoColons(o.user); NoColons(o.verb); NoColons(o.path);
    CacheKeyIsInjective(o, r);
  }

  /** The path of a URL: rooted, without query, fragment or control characters. */
  predicate UrlPath(path: string) {
    path != "" && path[0] == '/' && forall i :: 0 <= i < |path| ==> path[i] > '\U{1F}' && path[i] !in {'?', '#'}
  }

  predicate FieldChar(c: char) {
    '!' <= c <= '\U{FF}' && c != '\U{7F}'
  }

  /** A header value as section 5.5 of RFC 9110 has it: no blanks at either end, and not empty here. */
  predicate FieldValue(value: string) {
    && value != "" && FieldChar(value[0]) && FieldChar(value[|value| - 1])
    && forall i :: 0 <= i < |value| ==> FieldChar(value[i]) || value[i] in {' ', '\t'}
  }

  /** A request that can reach the middleware and is guarded by it. */
  predicate Servable(r: Request) {
    Guarded(r) && UrlPath(r.path) && FieldValue(r.key.value)
  }

  /** Another servable request of the same user and method with the same cache key. */
  predicate Twin(o: Request, r: Request) {
    && Servable(o) && o.user == r.user && o.verb == r.verb
    && r.key.Some? && CacheKey(o) == CacheKey(r) && !SameRequestKey(o, r)
  }

  function PathAndKey(r: Request): string
    requires r.key.Some?
  {
    r.path + ":" + r.key.value
  }

  /** At another colon, too, path and key as joined can be cut into a path and a key. */
  predicate CutsAnew(r: Request, j: nat)
    requires r.key.Some? && j < |PathAndKey(r)|
  {
    var all := PathAndKey(r);
    j != |r.path| && all[j] == ':' && UrlPath(all[..j]) && FieldValue(all[j + 1..])
  }

  lemma {:induction false} JoinsPathAndKey(r: Request)
    requires r.key.Some?
    ensures Join(r.user, r.verb, r.path, r.key.value) == r.user + ":" + (r.verb + ":" + PathAndKey(r))
  {
    assert r.path + (":" + r.key.value) == PathAndKey(r);
  }

  lemma {:induction false} TwinOf(r: Request, j: nat) returns (o: Request)
    requires Servable(r) && j < |PathAndKey(r)| && CutsAnew(r, j)
    ensures Twin(o, r)
  {
    var all := PathAndKey(r);
    o := r.(path := all[..j], key := Some(all[j + 1..]));
    assert PathAndKey(o) == all;
    JoinsPathAndKey(o);
    JoinsPathAndKey(r);
  }

  lemma {:induction false} CommonPrefixCancels(p: string, x: string, y: string)
    requires p + ":" + x == p + ":" + y
    ensures x == y
  {
    assert (p + ":" + x)[|p| + 1..] == x && (p + ":" + y)[|p| + 1..] == y;
  }

  lemma {:induction false} TwinCutsAnew(o: Request, r: Request)
    requires Servable(r) && Twin(o, r)
    ensures |o.path| < |PathAndKey(r)| && CutsAnew(r, |o.path|)
  {
    JoinsPathAndKey(o);
    JoinsPathAndKey(r);
    CommonPrefixCancels(r.user, r.verb + ":" + PathAndKey(r), o.verb + ":" + PathAndKey(o));
    CommonPrefixCancels(r.verb, PathAndKey(r), PathAndKey(o));
    var all, j := PathAndKey(r), |o.path|;
    assert all[..j] == o.path && all[j] == ':' && all[j + 1..] == o.key.value;
    assert r.path == all[..|r.path|] && r.key.value == all[|r.path| + 1..];
  }

  /** Among the requests one user can send with one method, another shares the cache key exactly when
      path and key, as joined, can be cut into a path and a key at a second colon. */
  lemma {:induction false} CacheKeyIsSharedIffColon(r: Request)
    requires Servable(r)
    ensures (exists o :: Twin(o, r)) <==> exists j: nat :: j < |PathAndKey(r)| && CutsAnew(r, j)
  {
    if j: nat :| j < |PathAndKey(r)| && CutsAnew(r, j) { var o := TwinOf(r, j); }
    if o :| Twin(o, r) { TwinCutsAnew(o, r); }
  }

  /** With colon-free user ids and methods the cache key tells both, whatever path and key are. */
  lemma {:induction false} CacheKeyTellsUserAndMethod(a: Request, b: Request)
    requires a.key.Some? && b.key.Some? && CacheKey(a) == CacheKey(b)
    requires ':' !in a.user && ':' !in b.user && ':' !in a.verb && ':' !in b.verb
    ensures a.user == b.user && a.verb == b.verb
  {
    FirstColonSplits(a.user, b.user, a.verb + ":" + (a.path + ":" + a.key.value),
                     b.verb + ":" + (b.path + ":" + b.key.value));
    FirstColonSplits(a.verb, b.verb, a.path + ":" + a.key.value, b.path + ":" + b.key.value);
  }

  // ---------- Headers and bodies ----------

  /** The dictionary has a header's value exactly where no earlier one has its name, and no other names. */
  lemma {:induction false} FirstHeaderWins(headers: seq<Header>, i: nat)
    requires i < |headers| && forall k :: 0 <= k < i ==> headers[k].name != headers[i].name
    ensures headers[i].name in HeaderDict(headers) && HeaderDict(headers)[headers[i].name] == headers[i].value
    decreases i
  {
    if i > 0 {
      assert headers[0].name != headers[i].name && headers[1..][i - 1] == headers[i];
      assert forall k :: 0 <= k < i - 1 ==> headers[1..][k] == headers[k + 1];
      FirstHeaderWins(headers[1..], i - 1);
    }
  }

  lemma {:induction false} NoOtherHeaders(headers: seq<Header>, name: string)
    ensures name in HeaderDict(headers) <==> exists i :: 0 <= i < |headers| && headers[i].name == name
  {
    if headers != [] {
      NoOtherHeaders(headers[1..], name);
      if i :| 0 <= i < |headers| - 1 && headers[1..][i].name == name { assert headers[i + 1].name == name; }
      if i :| 0 < i < |headers| && headers[i].name == name { assert headers[1..][i - 1].name == name; }
    }
  }

  /** A streamed body is the same however it is cut into chunks, and its document is what the bytes parse
      as, or the wrapper around bytes that do not. */
  lemma {:induction false} ConcatIsHomomorphic<S, J>(env: Env<S, J>, a: seq<Chunk>, b: seq<Chunk>)
    ensures Concat(env, a + b) == Concat(env, a) + Concat(env, b)
    decreases |b|
  {
    if b == [] {
      assert a + b == a;
    } else {
      assert (a + b)[..|a + b| - 1] == a + b[..|b| - 1];
      ConcatIsHomomorphic(env, a, b[..|b| - 1]);
    }
  }

  lemma {:induction false} DocumentOfChunks<S, J>(env: Env<S, J>, bytes: Bytes, text: string)
    ensures var both := bytes + env.encode(text);
            Document(env, [Raw(bytes), Text(text)]) ==
              if env.loads(both).Some? then env.loads(both).value else env.wrapRaw(both)
  {
    ConcatIsHomomorphic(env, [Raw(bytes)], [Text(text)]);
    assert Concat(env, [Raw(bytes)]) == bytes && Concat(env, [Text(text)]) == env.encode(text);
    assert [Raw(bytes)] + [Text(text)] == [Raw(bytes), Text(text)];
  }

  // ---------- Refinement ----------

  /** Event k ran the handler on a guarded request with this cache key and got a 2xx. */
  ghost predicate Answered<J>(log: seq<Event<J>>, k: int, r: Request) {
    && 0 <= k < |log| && log[k].executed && Success(log[k].response.status)
    && Guarded(log[k].arrival.request) && Guarded(r)
    && CacheKey(log[k].arrival.request) == CacheKey(r)
  }

  /** The same, still within the cache's time to live. */
  ghost predicate Fresh<J>(log: seq<Event<J>>, k: int, a: Arrival) {
    Answered(log, k, a.request) && a.at < log[k].arrival.at + TTL
  }

  /** What becomes of the request at index i of the log, told from the log alone. */
  ghost predicate Served<S, J>(env: Env<S, J>, log: seq<Event<J>>, i: nat)
    requires i < |log|
  {
    var e := log[i];
    if e.executed then
      && (forall k :: 0 <= k < i ==> !Fresh(log, k, e.arrival))
      && e.reply == (if Guarded(e.arrival.request) && Success(e.response.status)
                     then Json(e.response.status, Document(env, e.response.body), HeaderDict(e.response.headers))
                     else Passed(e.response))
    else
      exists k :: 0 <= k < i && Fresh(log, k, e.arrival)
               && e.reply == Json(log[k].response.status, Document(env, log[k].response.body), REPLAYED)
  }

  /** A stored entry is the answer to the logged event it came from. */
  ghost predicate EntryFrom<S, J>(env: Env<S, J>, w: World<S, J>, key: Digest, k: int)
    requires key in w.cache
  {
    && 0 <= k < |w.log| && w.log[k].executed && Success(w.log[k].response.status)
    && Guarded(w.log[k].arrival.request) && CacheKey(w.log[k].arrival.request) == key
    && w.cache[key] == Entry(w.log[k].response.status, Document(env, w.log[k].response.body),
                             w.log[k].arrival.at + TTL)
  }

  /** A logged 2xx to a guarded request is in the cache for at least its time to live. */
  ghost predicate Stored<J>(cache: map<Digest, Entry<J>>, e: Event<J>) {
    e.executed && Success(e.response.status) && Guarded(e.arrival.request) ==>
      var key := CacheKey(e.arrival.request);
      key in cache && e.arrival.at + TTL <= cache[key].expiresAt
  }

  ghost predicate CacheInv<S, J>(env: Env<S, J>, w: World<S, J>) {
    && (forall key :: key in w.cache ==> exists k :: EntryFrom(env, w, key, k))
    && (forall k :: 0 <= k < |w.log| ==> Stored(w.cache, w.log[k]))
  }

  ghost predicate InOrder(arrivals: seq<Arrival>) {
    forall i, j :: 0 <= i <= j < |arrivals| ==> arrivals[i].at <= arrivals[j].at
  }

  /** Everything the middleware promises of the requests served so far. */
  ghost predicate Inv<S, J>(env: Env<S, J>, s0: S, w: World<S, J>) {
    && CacheInv(env, w)
    && (forall i :: 0 <= i < |w.log| ==> Served(env, w.log, i))
    && BareRun(env, s0, Kept(w.log).0) == (w.state, Kept(w.log).1)
  }

  lemma {:induction false} HitIffFresh<S, J>(env: Env<S, J>, w: World<S, J>, a: Arrival)
    requires CacheInv(env, w)
    ensures Hit(w.cache, a) <==> exists k :: Fresh(w.log, k, a)
    ensures Hit(w.cache, a) ==>
              var e := w.cache[CacheKey(a.request)];
              exists k :: Fresh(w.log, k, a) && e.status == w.log[k].response.status
                       && e.body == Document(env, w.log[k].response.body)
  {
    if Hit(w.cache, a) {
      var k :| EntryFrom(env, w, CacheKey(a.request), k);
      assert Fresh(w.log, k, a);
    }
  }

  lemma {:induction false} HandleKeepsStored<S, J>(env: Env<S, J>, w: World<S, J>, a: Arrival, k: nat)
    requires k < |w.log| && Stored(w.cache, w.log[k]) && w.log[k].arrival.at <= a.at
    ensures Stored(Handle(env, w, a).cache, w.log[k])
  {
  }

  lemma {:induction false} HandleKeepsEntries<S, J>(env: Env<S, J>, w: World<S, J>, a: Arrival, key: Digest)
    requires key in w.cache ==> exists k :: EntryFrom(env, w, key, k)
    ensures var w' := Handle(env, w, a); key in w'.cache ==> exists k :: EntryFrom(env, w', key, k)
  {
    var w', n := Handle(env, w, a), |w.log|;
    if key in w.cache && w'.cache[key] == w.cache[key] {
      var k :| EntryFrom(env, w, key, k);
      assert w'.log[k] == w.log[k];
      assert EntryFrom(env, w', key, k);
    } else if key in w'.cache {
      assert EntryFrom(env, w', key, n);
    }
  }

  lemma {:induction false} HandleKeepsCacheInv<S, J>(env: Env<S, J>, w: World<S, J>, a: Arrival)
    requires CacheInv(env, w)
    requires forall i :: 0 <= i < |w.log| ==> w.log[i].arrival.at <= a.at
    ensures CacheInv(env, Handle(env, w, a))
  {
    var w', n := Handle(env, w, a), |w.log|;
    forall key | key in w'.cache ensures exists k :: EntryFrom(env, w', key, k) {
      HandleKeepsEntries(env, w, a, key);
    }
    forall k | 0 <= k < |w'.log| ensures Stored(w'.cache, w'.log[k]) {
      if k < n { HandleKeepsStored(env, w, a, k); }
    }
  }

  lemma {:induction false} ServedStays<S, J>(env: Env<S, J>, log: seq<Event<J>>, e: Event<J>, i: nat)
    requires i < |log| && Served(env, log, i)
    ensures Served(env, log + [e], i)
  {
    var log' := log + [e];
    assert forall k, b: Arrival :: 0 <= k < i ==> (Fresh(log, k, b) <==> Fresh(log', k, b));
  }

  lemma {:induction false} NewlyServed<S, J>(env: Env<S, J>, w: World<S, J>, a: Arrival)
    requires CacheInv(env, w)
    ensures Served(env, Handle(env, w, a).log, |w.log|)
  {
    var log' := Handle(env, w, a).log;
    HitIffFresh(env, w, a);
    assert forall k :: 0 <= k < |w.log| ==> (Fresh(w.log, k, a) <==> Fresh(log', k, a));
  }

  lemma {:induction false} KeptGrows<J>(log: seq<Event<J>>, e: Event<J>)
    ensures Kept(log + [e]) == if e.executed then (Kept(log).0 + [e.arrival], Kept(log).1 + [e.response]) else Kept(log)
  {
    assert (log + [e])[..|log|] == log;
  }

  lemma {:induction false} BareRunGrows<S, J>(env: Env<S, J>, s: S, trace: seq<Arrival>, a: Arrival)
    ensures var (s1, before) := BareRun(env, s, trace);
            var (s2, response) := env.handler(s1, a);
            BareRun(env, s, trace + [a]) == (s2, before + [response])
  {
    assert (trace + [a])[..|trace|] == trace;
  }

  lemma {:induction false} HandleKeepsInv<S, J>(env: Env<S, J>, s0: S, w: World<S, J>, a: Arrival)
    requires Inv(env, s0, w)
    requires forall i :: 0 <= i < |w.log| ==> w.log[i].arrival.at <= a.at
    ensures Inv(env, s0, Handle(env, w, a))
  {
    var w', n := Handle(env, w, a), |w.log|;
    HandleKeepsCacheInv(env, w, a);
    assert w'.log == w.log + [w'.log[n]];
    forall i | 0 <= i <= n ensures Served(env, w'.log, i) {
      if i < n { ServedStays(env, w.log, w'.log[n], i); } else { NewlyServed(env, w, a); }
    }
    KeptGrows(w.log, w'.log[n]);
    BareRunGrows(env, s0, Kept(w.log).0, a);
  }

  lemma {:induction false} RunLogs<S, J>(env: Env<S, J>, w: World<S, J>, arrivals: seq<Arrival>)
    ensures var log := Run(env, w, arrivals).log;
            && |log| == |w.log| + |arrivals|
            && (forall i :: 0 <= i < |w.log| ==> log[i] == w.log[i])
            && (forall j :: |w.log| <= j < |log| ==> log[j].arrival == arrivals[j - |w.log|])
    decreases |arrivals|
  {
    if arrivals != [] {
      RunLogs(env, Handle(env, w, arrivals[0]), arrivals[1..]);
    }
  }

  lemma {:induction false} RunKeepsInv<S, J>(env: Env<S, J>, s0: S, w: World<S, J>, arrivals: seq<Arrival>)
    requires Inv(env, s0, w) && InOrder(arrivals)
    requires forall i :: 0 <= i < |w.log| && arrivals != [] ==> w.log[i].arrival.at <= arrivals[0].at
    ensures Inv(env, s0, Run(env, w, arrivals))
    decreases |arrivals|
  {
    if arrivals != [] {
      HandleKeepsInv(env, s0, w, arrivals[0]);
      RunLogs(env, w, arrivals[..1]);
      var w' := Handle(env, w, arrivals[0]);
      assert forall i :: 0 <= i < |w'.log| ==> w'.log[i].arrival.at <= arrivals[0].at;
      RunKeepsInv(env, s0, w', arrivals[1..]);
    }
  }

  /** On any run in time order a request reaches the handler exactly when no earlier one with its
      cache key got a 2xx less than a day before; the others are answered with such a
      2xx's status and document; and the handler ends where it would have, answering as it would
      have, on the requests that reached it alone. */
  lemma {:induction false} RefinesDeduplicatedTrace<S, J>(env: Env<S, J>, s0: S, arrivals: seq<Arrival>)
    requires InOrder(arrivals)
    ensures var w := Run(env, World(s0, map[], []), arrivals);
            && |w.log| == |arrivals|
            && (forall i :: 0 <= i < |arrivals| ==>
                  w.log[i].arrival == arrivals[i] && Served(env, w.log, i))
            && BareRun(env, s0, Kept(w.log).0) == (w.state, Kept(w.log).1)
  {
    var w0: World<S, J> := World(s0, map[], []);
    var w := Run(env, w0, arrivals);
    assert Inv(env, s0, w) by { RunKeepsInv(env, s0, w0, arrivals); }
    RunLogs(env, w0, arrivals);
    forall i | 0 <= i < |arrivals| ensures w.log[i].arrival == arrivals[i] && Served(env, w.log, i) {}
  }

  predicate Keyed(r: Request) {
    r.verb != "GET" && r.verb != "HEAD" && r.verb != "OPTIONS" && r.key.Some? && r.key.value != ""
  }

  /** Request k was executed with a 2xx that answers request i. */
  ghost predicate Answers<J>(log: seq<Event<J>>, k: nat, i: nat)
    requires k < i < |log|
  {
    && log[k].executed && 200 <= log[k].response.status < 300
    && Keyed(log[k].arrival.request) && Keyed(log[i].arrival.request)
    && CacheKey(log[k].arrival.request) == CacheKey(log[i].arrival.request)
    && log[i].arrival.at < log[k].arrival.at + 86400.0
  }

  /** What becomes of request i, in plain terms. A request is guarded if its method is none of GET, HEAD
      and OPTIONS and it has a non-empty key. A guarded request is dropped exactly when an earlier guarded
      one with its cache key was executed with a status from 200 to 299 less than 86400 seconds before,
      and is answered with that one's status and document; any other request is executed. Of the executed
      ones only a guarded 2xx is sent on as a document. */
  ghost predicate Fate<S, J>(env: Env<S, J>, log: seq<Event<J>>, i: nat)
    requires i < |log|
  {
    var e := log[i];
    && (!e.executed <==> exists k :: 0 <= k < i && Answers(log, k, i))
    && (!e.executed ==>
          exists k :: 0 <= k < i && Answers(log, k, i)
                   && e.reply == Json(log[k].response.status, Document(env, log[k].response.body),
                                      map["X-Idempotency-Replayed" := "true"]))
    && (e.executed && Keyed(e.arrival.request) && 200 <= e.response.status < 300 ==>
          e.reply == Json(e.response.status, Document(env, e.response.body), HeaderDict(e.response.headers)))
    && (e.executed && !(Keyed(e.arrival.request) && 200 <= e.response.status < 300) ==> e.reply == Passed(e.response))
  }

  lemma {:induction false} ServedIsFate<S, J>(env: Env<S, J>, log: seq<Event<J>>, i: nat)
    requires i < |log| && Served(env, log, i)
    ensures Fate(env, log, i)
  {
    assert forall k :: 0 <= k < i ==> (Fresh(log, k, log[i].arrival) <==> Answers(log, k, i));
  }

  lemma {:induction false} FateOfRequest<S, J>(env: Env<S, J>, s0: S, arrivals: seq<Arrival>, i: nat)
    requires InOrder(arrivals) && i < |arrivals|
    ensures var log := Run(env, World(s0, map[], []), arrivals).log;
            && |log| == |arrivals| && (forall k :: 0 <= k < |log| ==> log[k].arrival == arrivals[k])
            && Fate(env, log, i)
  {
    RefinesDeduplicatedTrace(env, s0, arrivals);
    ServedIsFate(env, Run(env, World(s0, map[], []), arrivals).log, i);
  }

  /** In the four fields of a request instead of its cache key, where users, methods and paths have no
      colon. */
  lemma {:induction false} DroppedOnceAnswered<S, J>(env: Env<S, J>, s0: S, arrivals: seq<Arrival>, i: nat)
    requires InOrder(arrivals) && i < |arrivals|
    requires forall k :: 0 <= k <= i ==> ColonFree(arrivals[k].request)
    ensures var log := Run(env, World(s0, map[], []), arrivals).log;
            var r := arrivals[i].request;
            && |log| == |arrivals|
            && (!log[i].executed <==>
                && r.verb != "GET" && r.verb != "HEAD" && r.verb != "OPTIONS" && r.key.Some? && r.key.value != ""
                && exists k :: 0 <= k < i && log[k].executed && 200 <= log[k].response.status < 300
                            && arrivals[k].request.user == r.user && arrivals[k].request.verb == r.verb
                            && arrivals[k].request.path == r.path && arrivals[k].request.key == r.key
                            && arrivals[i].at < arrivals[k].at + 86400.0)
  {
    var log := Run(env, World(s0, map[], []), arrivals).log;
    FateOfRequest(env, s0, arrivals, i);
    forall k | 0 <= k < i && arrivals[k].request.key.Some? && arrivals[i].request.key.Some?
      ensures CacheKey(arrivals[k].request) == CacheKey(arrivals[i].request)
              <==> SameRequestKey(arrivals[k].request, arrivals[i].request)
    {
      CacheKeyIsInjective(arrivals[k].request, arrivals[i].request);
    }
    if k :| 0 <= k < i && Answers(log, k, i) {
      assert SameRequestKey(arrivals[k].request, arrivals[i].request);
    }
    if k :| 0 <= k < i && log[k].executed && 200 <= log[k].response.status < 300 && Keyed(arrivals[i].request)
            && SameRequestKey(arrivals[k].request, arrivals[i].request) && arrivals[i].at < arrivals[k].at + 86400.0 {
      assert Answers(log, k, i);
    }
  }

  /** No user is ever given the answer to another user's request, or to one of another method, whatever
      paths and keys are used. */
  lemma {:induction false} RepliesStayWithTheirUser<S, J>(env: Env<S, J>, s0: S, arrivals: seq<Arrival>, i: nat)
    requires InOrder(arrivals) && i < |arrivals|
    requires forall k :: 0 <= k <= i ==> ':' !in arrivals[k].request.user && ':' !in arrivals[k].request.verb
    ensures var log := Run(env, World(s0, map[], []), arrivals).log;
            && |log| == |arrivals|
            && (!log[i].executed ==>
                  exists k :: 0 <= k < i && Fresh(log, k, arrivals[i])
                           && arrivals[k].request.user == arrivals[i].request.user
                           && arrivals[k].request.verb == arrivals[i].request.verb
                           && log[i].reply
                              == Json(log[k].response.status, Document(env, log[k].response.body), REPLAYED))
  {
    var log := Run(env, World(s0, map[], []), arrivals).log;
    RefinesDeduplicatedTrace(env, s0, arrivals);
    assert Served(env, log, i);
    forall k | 0 <= k < i && Fresh(log, k, arrivals[i])
      ensures arrivals[k].request.user == arrivals[i].request.user
      ensures arrivals[k].request.verb == arrivals[i].request.verb
    {
      CacheKeyTellsUserAndMethod(arrivals[k].request, arrivals[i].request);
    }
  }

  // ---------- The middleware ----------

  class IdempotencyMiddleware<S, J> {
    const env: Env<S, J>
    var state: S
    var cache: map<Digest, Entry<J>>
    ghost var log: seq<Event<J>>

    ghost function View(): World<S, J>
      reads this
    {
      World(state, cache, log)
    }

    constructor (env: Env<S, J>, s0: S)
      ensures this.env == env && View() == World(s0, map[], [])
    {
      this.env := env;
      state, cache, log := s0, map[], [];
    }

    method ReadBody(body: seq<Chunk>) returns (bytes: Bytes)
      ensures bytes == Concat(env, body)
    {
      bytes := [];
      for i := 0 to |body|
        invariant bytes == Concat(env, body[..i])
      {
        assert body[..i + 1][..i] == body[..i];
        match body[i]
        case Raw(b) => bytes := bytes + b;
        case Text(t) => bytes := bytes + env.encode(t);
      }
      assert body[..|body|] == body;
    }

    method Dispatch(a: Arrival) returns (reply: Reply<J>)
      modifies this
      ensures View() == Handle(env, old(View()), a)
      ensures log != [] && reply == log[|log| - 1].reply
    {
      var r := a.request;
      if r.verb in SAFE_METHODS || r.key.None? || r.key.value == "" {
        var (state', response) := env.handler(state, a);
        state := state';
        reply := Passed(response);
        log := log + [Event(a, true, response, reply)];
        return;
      }
      var cacheKey := CacheKey(r);
      if cacheKey in cache && a.at < cache[cacheKey].expiresAt {
        var data := cache[cacheKey];
        reply := Json(data.status, data.body, REPLAYED);
        log := log + [Event(a, false, Response(data.status, [], []), reply)];
        return;
      }
      var (state', response) := env.handler(state, a);
      state := state';
      reply := Passed(response);
      if 200 <= response.status < 300 {
        var bytes := ReadBody(response.body);
        var loaded := env.loads(bytes);
        var document := if loaded.Some? then loaded.value else env.wrapRaw(bytes);
        cache := cache[cacheKey := Entry(response.status, document, a.at + TTL)];
        reply := Json(response.status, document, HeaderDict(response.headers));
      }
      log := log + [Event(a, true, response, reply)];
    }
  }
}
