/** The ingress router's choice of a backend, and the backend's own admission test. */
module Routing {
  import opened Prelude
  import opened ListIds
  import Sharding

  const SLASH: char := '/'

  // ---- strings -----------------------------------------------------------------------------------

  /** All leading and trailing slashes removed. */
  function Trim(s: string): string {
    TrimRight(TrimLeft(s))
  }

  function TrimLeft(s: string): string {
    if s != "" && s[0] == SLASH then TrimLeft(s[1..]) else s
  }

  function TrimRight(s: string): string {
    if s != "" && s[|s| - 1] == SLASH then TrimRight(s[..|s| - 1]) else s
  }

  /** A run of slashes. */
  predicate OnlySlashes(s: string) {
    forall k :: 0 <= k < |s| ==> s[k] == '/'
  }

  /** The string neither begins nor ends with a slash. */
  predicate NoOuterSlash(s: string) {
    s != "" ==> s[0] != '/' && s[|s| - 1] != '/'
  }

  /** What is left after trimming, in terms of the text: the part between the slashes at both ends. */
  lemma TrimExact(s: string, t: string)
    ensures Trim(s) == t <==>
      NoOuterSlash(t) && exists a, b :: OnlySlashes(a) && OnlySlashes(b) && s == a + t + b
  {
    var x := TrimLeft(s);
    var a := TrimLeftRest(s);
    var b := TrimRightRest(x);
    assert s == a + Trim(s) + b;
    assert NoOuterSlash(Trim(s)) by { TrimRightKeepsLeft(x); }
    if NoOuterSlash(t) && exists a, b :: OnlySlashes(a) && OnlySlashes(b) && s == a + t + b {
      var a, b :| OnlySlashes(a) && OnlySlashes(b) && s == a + t + b;
      TrimOuter(a, t, b);
    }
  }

  lemma {:induction false} TrimLeftRest(s: string) returns (a: string)
    ensures OnlySlashes(a) && s == a + TrimLeft(s) && (TrimLeft(s) != "" ==> TrimLeft(s)[0] != '/')
  {
    a := "";
    if s != "" && s[0] == SLASH {
      a := TrimLeftRest(s[1..]);
      a := "/" + a;
      assert s == "/" + s[1..];
    }
  }

  lemma {:induction false} TrimRightRest(s: string) returns (b: string)
    ensures OnlySlashes(b) && s == TrimRight(s) + b
    ensures TrimRight(s) != "" ==> TrimRight(s)[|TrimRight(s)| - 1] != '/'
  {
    b := "";
    if s != "" && s[|s| - 1] == SLASH {
      b := TrimRightRest(s[..|s| - 1]);
      b := b + "/";
      assert s == s[..|s| - 1] + "/";
    }
  }

  lemma TrimRightKeepsLeft(s: string)
    requires s != "" ==> s[0] != '/'
    ensures NoOuterSlash(TrimRight(s))
  {
    var b := TrimRightRest(s);
    if TrimRight(s) != "" {
      assert TrimRight(s)[0] == s[0];
    }
  }

  lemma TrimOuter(a: string, t: string, b: string)
    requires OnlySlashes(a) && OnlySlashes(b) && NoOuterSlash(t)
    ensures Trim(a + t + b) == t
  {
    if t == "" {
      assert a + t + b == a + b + "";
      TrimLeftDrops(a + b, "");
    } else {
      assert a + t + b == a + (t + b);
      TrimLeftDrops(a, t + b);
      TrimRightDrops(t, b);
    }
  }

  lemma {:induction false} TrimLeftDrops(a: string, t: string)
    requires OnlySlashes(a) && (t != "" ==> t[0] != '/')
    ensures TrimLeft(a + t) == t
  {
    if a == "" {
      assert a + t == t;
    } else {
      assert (a + t)[1..] == a[1..] + t;
      TrimLeftDrops(a[1..], t);
    }
  }

  lemma {:induction false} TrimRightDrops(t: string, b: string)
    requires OnlySlashes(b) && (t != "" ==> t[|t| - 1] != '/')
    ensures TrimRight(t + b) == t
  {
    if b == "" {
      assert t + b == t;
    } else {
      assert (t + b)[..|t + b| - 1] == t + b[..|b| - 1];
      TrimRightDrops(t, b[..|b| - 1]);
    }
  }

  /** The parts between slashes; n slashes make n + 1 parts. */
  function Split(s: string): (parts: seq<string>)
    ensures |parts| >= 1
  {
    match IndexOf(s, SLASH)
    case None => [s]
    case Some(i) => [s[..i]] + Split(s[i + 1..])
  }

  function Join(parts: seq<string>): string
    requires |parts| >= 1
  {
    if |parts| == 1 then parts[0] else parts[0] + [SLASH] + Join(parts[1..])
  }

  predicate NoSlash(parts: seq<string>) {
    forall k :: 0 <= k < |parts| ==> SLASH !in parts[k]
  }

  /** `Split` undoes `Join` on parts without slashes. */
  lemma {:induction false} SplitJoin(parts: seq<string>)
    requires |parts| >= 1 && NoSlash(parts)
    ensures Split(Join(parts)) == parts
  {
    if |parts| > 1 {
      var s, head := Join(parts), parts[0];
      assert s[..|head|] == head && s[|head| + 1..] == Join(parts[1..]);
      IndexOfFirst(s, SLASH, |head|);
      SplitJoin(parts[1..]);
    }
  }

  /** And `Join` undoes `Split` on every string. */
  lemma {:induction false} JoinSplit(s: string)
    ensures NoSlash(Split(s)) && Join(Split(s)) == s
    decreases |s|
  {
    var first := IndexOf(s, SLASH);
    if first.Some? {
      var i := first.value;
      JoinSplit(s[i + 1..]);
      assert s == s[..i] + [SLASH] + s[i + 1..];
      assert Split(s)[1..] == Split(s[i + 1..]);
    }
  }

  // ---- paths -------------------------------------------------------------------------------------

  /** The list named by a status path, if the path has that shape. */
  function ListIdFromStatusPath(path: string): Option<string> {
    var segments := Split(Trim(path));
    if |segments| != 3 || segments[0] != "status" || segments[1] == "" then None else Some(segments[1])
  }

  /** A status path without its outer slashes. */
  function Bare(id: string, rest: string): string {
    "status" + [SLASH] + id + [SLASH] + rest
  }

  lemma JoinThree(id: string, rest: string)
    ensures Join(["status", id, rest]) == Bare(id, rest)
  {
    var parts := ["status", id, rest];
    assert parts[1..] == [id, rest] && [id, rest][1..] == [rest];
    assert Join([id, rest]) == id + [SLASH] + Join([rest]);
  }

  /** Exactly the paths `status/<id>/<anything without a slash>`, up to slashes at either end. */
  lemma StatusPathExact(path: string, id: string)
    ensures ListIdFromStatusPath(path) == Some(id) <==>
      id != "" && SLASH !in id && exists rest :: SLASH !in rest && Trim(path) == Bare(id, rest)
  {
    if ListIdFromStatusPath(path) == Some(id) {
      ParsedIsBare(path, id);
    }
    if id != "" && SLASH !in id && exists rest :: SLASH !in rest && Trim(path) == Bare(id, rest) {
      var rest :| SLASH !in rest && Trim(path) == Bare(id, rest);
      BareParses(path, id, rest);
    }
  }

  lemma ParsedIsBare(path: string, id: string)
    requires ListIdFromStatusPath(path) == Some(id)
    ensures id != "" && SLASH !in id && exists rest :: SLASH !in rest && Trim(path) == Bare(id, rest)
  {
    var segments := Split(Trim(path));
    JoinSplit(Trim(path));
    assert SLASH !in segments[1] && SLASH !in segments[2];
    assert segments == ["status", id, segments[2]];
    JoinThree(id, segments[2]);
  }

  lemma BareParses(path: string, id: string, rest: string)
    requires id != "" && SLASH !in id && SLASH !in rest && Trim(path) == Bare(id, rest)
    ensures ListIdFromStatusPath(path) == Some(id)
  {
    assert NoSlash(["status", id, rest]);
    SplitJoin(["status", id, rest]);
    JoinThree(id, rest);
  }

  /** The path a client calls to change the status at `idx`, a decimal number. */
  function StatusPath(id: string, idx: string): string {
    [SLASH] + Bare(id, idx)
  }

  lemma TrimPath(id: string, idx: string)
    requires idx != "" && SLASH !in idx
    ensures Trim(StatusPath(id, idx)) == Bare(id, idx)
  {
    var path, core := StatusPath(id, idx), Bare(id, idx);
    assert path[1..] == core && core[0] == 's';
    assert core[|core| - 1] == idx[|idx| - 1];
    assert TrimLeft(path) == TrimLeft(core) == core == TrimRight(core);
  }

  /** A list's status path gives the list back if and only if its ID has no slash; with one, the path
      has too many parts to name any list. */
  lemma StatusPathRoundTrip(id: string, idx: string)
    requires idx != "" && SLASH !in idx
    ensures ListIdFromStatusPath(StatusPath(id, idx)) == Some(id) <==> id != "" && SLASH !in id
    ensures SLASH in id ==> ListIdFromStatusPath(StatusPath(id, idx)) == None
  {
    TrimPath(id, idx);
    StatusPathExact(StatusPath(id, idx), id);
    var found := ListIdFromStatusPath(StatusPath(id, idx));
    if found.Some? && SLASH in id {
      ParsedIsBare(StatusPath(id, idx), found.value);
      var rest :| SLASH !in rest && Bare(id, idx) == Bare(found.value, rest);
      SlashCount(id, idx);
      SlashCount(found.value, rest);
      NoSlashNone(found.value);
      NoSlashNone(rest);
      SomeSlash(id);
    }
  }

  function Slashes(s: string): nat {
    if s == "" then 0 else Slashes(s[1..]) + if s[0] == SLASH then 1 else 0
  }

  lemma {:induction false} SlashesAdd(s: string, t: string)
    ensures Slashes(s + t) == Slashes(s) + Slashes(t)
  {
    if s == "" {
      assert s + t == t;
    } else {
      assert (s + t)[1..] == s[1..] + t;
      SlashesAdd(s[1..], t);
    }
  }

  lemma SlashCount(id: string, rest: string)
    ensures Slashes(Bare(id, rest)) == Slashes("status/") + Slashes(id) + Slashes("/") + Slashes(rest)
  {
    assert Bare(id, rest) == "status/" + id + "/" + rest;
    SlashesAdd("status/" + id + "/", rest);
    SlashesAdd("status/" + id, "/");
    SlashesAdd("status/", id);
  }

  lemma {:induction false} NoSlashNone(s: string)
    requires SLASH !in s
    ensures Slashes(s) == 0
  {
    if s != "" {
      NoSlashNone(s[1..]);
    }
  }

  lemma {:induction false} SomeSlash(s: string)
    requires SLASH in s
    ensures Slashes(s) >= 1
  {
    if s[0] != SLASH {
      SomeSlash(s[1..]);
    }
  }

  // ---- the router ----------------------------------------------------------------------------------

  /** The shard embedded in the list a path names. */
  function PathShard(path: string): Option<string> {
    match ListIdFromStatusPath(path)
    case None => None
    case Some(id) => ParseShard(id)
  }

  /** A path built from a fresh list ID leads back to the shard that created the list, exactly when the
      shard's name is non-empty and has no slash (no name with a dot gets an ID at all). */
  lemma PathShardExact(shard: string, suffix: string, idx: string)
    requires New(shard, suffix).Ok? && suffix != "" && SLASH !in suffix && idx != "" && SLASH !in idx
    ensures PathShard(StatusPath(New(shard, suffix).value, idx)) == Some(shard) <==> shard != "" && SLASH !in shard
  {
    var id := New(shard, suffix).value;
    RoundTrip(shard, suffix);
    StatusPathRoundTrip(id, idx);
    assert SLASH in id <==> SLASH in shard by {
      if SLASH in shard {
        var k :| 0 <= k < |shard| && shard[k] == SLASH;
        assert id[k] == SLASH;
      }
    }
  }

  datatype Reply = Unauthorized | BadGateway | Proxied(shard: string)

  /** `token` is what the validator makes of the bearer token: a tenant, or nothing. */
  method ServeHTTP(proxies: map<string, string>, path: string, token: Option<string>) returns (r: Reply)
    ensures r.Unauthorized? <==> token.None?
    ensures token.Some? ==> r == Route(proxies, path, token.value)
  {
    if token.None? {
      return Unauthorized;
    }
    var shardId := token.value;
    var id := ListIdFromStatusPath(path);
    if id.Some? {
      var s := ParseShard(id.value);
      if s.Some? && s.value in proxies {
        shardId := s.value;
      }
    }
    if shardId !in proxies {
      return BadGateway;
    }
    return Proxied(shardId);
  }

  /** The list's own shard where it is known and configured, else the tenant's. */
  function Route(proxies: map<string, string>, path: string, tenant: string): Reply {
    var s := PathShard(path);
    if s.Some? && s.value in proxies then Proxied(s.value)
    else if tenant in proxies then Proxied(tenant)
    else BadGateway
  }

  /** One proxy per configured backend, or an error when some URL does not parse. */
  method NewRouter(backends: map<string, string>, parse: string -> Option<string>)
    returns (r: Option<map<string, string>>)
    ensures r.None? <==> exists shard :: shard in backends && parse(backends[shard]).None?
    ensures r.Some? ==> r.value.Keys == backends.Keys
    ensures r.Some? ==> forall shard :: shard in backends ==> parse(backends[shard]) == Some(r.value[shard])
  {
    var proxies: map<string, string> := map[];
    var todo := backends.Keys;
    while todo != {}
      invariant todo <= backends.Keys && proxies.Keys == backends.Keys - todo
      invariant forall shard :: shard in proxies ==> parse(backends[shard]) == Some(proxies[shard])
      decreases todo
    {
      var shard :| shard in todo;
      var target := parse(backends[shard]);
      if target.None? {
        return None;
      }
      proxies := proxies[shard := target.value];
      todo := todo - {shard};
    }
    return Some(proxies);
  }

  /** The backend's test: the token's tenant must be the backend's own shard. */
  datatype Admission = NoToken | WrongShard | Admitted

  function RequireShard(shard: string, token: Option<string>): Admission {
    if token.None? then NoToken else if token.value != shard then WrongShard else Admitted
  }

  /** The path is that of a status change on a list whose ID a shard of that name gives. */
  ghost predicate NamesListOf(path: string, shard: string) {
    && shard != "" && SEPARATOR !in shard && SLASH !in shard
    && exists suffix, rest ::
         suffix != "" && SLASH !in suffix && SLASH !in rest && Trim(path) == Bare(Named(shard, suffix), rest)
  }

  lemma NoSlashParts(shard: string, suffix: string)
    ensures SLASH !in Named(shard, suffix) <==> SLASH !in shard && SLASH !in suffix
  {
    var id := Named(shard, suffix);
    assert forall k :: 0 <= k < |shard| ==> id[k] == shard[k];
    assert forall k :: 0 <= k < |suffix| ==> id[|shard| + 1 + k] == suffix[k];
  }

  /** Which paths carry which shard, in terms of the text of the path. */
  lemma PathShardIs(path: string, shard: string)
    ensures PathShard(path) == Some(shard) <==> NamesListOf(path, shard)
  {
    if PathShard(path) == Some(shard) {
      var id := ListIdFromStatusPath(path).value;
      ParsedIsBare(path, id);
      ParseShardExact(id, shard);
      var suffix :| suffix != "" && New(shard, suffix) == Ok(id);
      NoSlashParts(shard, suffix);
    }
    if NamesListOf(path, shard) {
      var suffix, rest :|
        suffix != "" && SLASH !in suffix && SLASH !in rest && Trim(path) == Bare(Named(shard, suffix), rest);
      NoSlashParts(shard, suffix);
      BareParses(path, Named(shard, suffix), rest);
      RoundTrip(shard, suffix);
    }
  }

  /** The request is proxied to some backend and admitted there. */
  predicate Reaches(proxies: map<string, string>, path: string, tenant: string) {
    var r := Route(proxies, path, tenant);
    r.Proxied? && RequireShard(r.shard, Some(tenant)) == Admitted
  }

  /** Where a request goes, for every path and tenant: to another shard than the token's exactly when
      the path names a list of that shard and the shard is configured. */
  lemma RouteExact(proxies: map<string, string>, path: string, tenant: string, shard: string)
    requires shard != tenant
    ensures Route(proxies, path, tenant) == Proxied(shard) <==> shard in proxies && NamesListOf(path, shard)
  {
    PathShardIs(path, shard);
  }

  /** Which requests reach a backend that admits them, for every path and tenant: those of configured
      tenants, unless the path names a list of another configured shard. */
  lemma AdmittedExact(proxies: map<string, string>, path: string, tenant: string)
    ensures Reaches(proxies, path, tenant) <==>
      tenant in proxies && !exists shard :: shard in proxies && shard != tenant && NamesListOf(path, shard)
  {
    var carried := PathShard(path);
    forall shard | shard in proxies ensures carried == Some(shard) <==> NamesListOf(path, shard) {
      PathShardIs(path, shard);
    }
  }

  /** What becomes of a status change on a list created by `shard`, for every tenant: a configured
      router sends it to that shard, and it is admitted if and only if the tenant is still that shard. */
  lemma ListFollowsItsShard(proxies: map<string, string>, shard: string, suffix: string, idx: string, tenant: string)
    requires New(shard, suffix).Ok? && suffix != "" && SLASH !in suffix && idx != "" && SLASH !in idx
    requires shard != "" && SLASH !in shard && shard in proxies
    ensures var path := StatusPath(New(shard, suffix).value, idx);
      && Route(proxies, path, tenant) == Proxied(shard)
      && (Reaches(proxies, path, tenant) <==> tenant == shard)
  {
    PathShardExact(shard, suffix, idx);
  }

  // ---- routing across reassignments ------------------------------------------------------------------

  /** An issuer gets its tenant from the assignment protocol. In every run: a list was created under the
      tenant one call returned; a request made under the tenant another call returned still goes to
      that list's shard, and is admitted if and only if the two calls returned the same shard. In
      particular it is always admitted when the issuer was never reassigned. */
  lemma RoutedInEveryRun(es: seq<Sharding.Event>, hash: string -> nat, a: Sharding.CallId, b: Sharding.CallId,
                         proxies: map<string, string>, suffix: string, idx: string)
    requires Sharding.HasReturned(Sharding.Run(es, hash), a) && Sharding.HasReturned(Sharding.Run(es, hash), b)
    requires Sharding.Run(es, hash).calls[a].issuer == Sharding.Run(es, hash).calls[b].issuer
    requires var shard := Sharding.Run(es, hash).calls[a].phase.shard;
      New(shard, suffix).Ok? && shard != "" && SLASH !in shard && shard in proxies
    requires suffix != "" && SLASH !in suffix && idx != "" && SLASH !in idx
    ensures var calls := Sharding.Run(es, hash).calls;
      var shard, tenant := calls[a].phase.shard, calls[b].phase.shard;
      var path := StatusPath(New(shard, suffix).value, idx);
      && Route(proxies, path, tenant) == Proxied(shard)
      && (Reaches(proxies, path, tenant) <==> tenant == shard)
      && (Sharding.NotReassigned(es, calls[a].issuer) ==> Reaches(proxies, path, tenant))
  {
    var calls := Sharding.Run(es, hash).calls;
    ListFollowsItsShard(proxies, calls[a].phase.shard, suffix, idx, calls[b].phase.shard);
    if Sharding.NotReassigned(es, calls[a].issuer) {
      Sharding.AllAgree(es, hash, a, b);
    }
  }
}
