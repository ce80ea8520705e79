/** List IDs: the creating shard, a dot, and a random suffix. */
module ListIds {
  import opened Prelude

  const SEPARATOR: char := '.'

  datatype Error = BadShard

  /** The ID a shard gives to the 32 hexadecimal digits of its random draw. */
  function Named(shard: string, suffix: string): string {
    shard + [SEPARATOR] + suffix
  }

  function New(shard: string, suffix: string): Result<string, Error> {
    if SEPARATOR in shard then Err(BadShard) else Ok(Named(shard, suffix))
  }

  /** The position of the first `c` in `s`, if there is one. */
  function IndexOf(s: string, c: char): (r: Option<nat>)
    ensures r.None? <==> c !in s
    ensures r.Some? ==> r.value < |s| && s[r.value] == c && c !in s[..r.value]
  {
    if s == [] then None
    else if s[0] == c then Some(0)
    else match IndexOf(s[1..], c) case None => None case Some(i) => Some(i + 1)
  }

  /** The shard embedded in an ID; none without a separator, or with nothing on one side of it. */
  function ParseShard(id: string): Option<string> {
    match IndexOf(id, SEPARATOR)
    case None => None
    case Some(i) => if i == 0 || i == |id| - 1 then None else Some(id[..i])
  }

  /** A prefix without the separator, followed by the separator, is what `IndexOf` stops at. */
  lemma {:induction false} IndexOfFirst(s: string, c: char, i: nat)
    requires i < |s| && s[i] == c && c !in s[..i]
    ensures IndexOf(s, c) == Some(i)
  {
    if i != 0 {
      assert s[0] in s[..i];
      assert s[1..][..i - 1] == s[..i][1..];
      IndexOfFirst(s[1..], c, i - 1);
    }
  }

  /** Parsing is the exact inverse of naming: an ID parses to a shard if and only if the ID is one
      that a non-empty, separator-free shard would give, for a non-empty suffix. */
  lemma ParseShardExact(id: string, shard: string)
    ensures ParseShard(id) == Some(shard) <==>
      shard != "" && exists suffix :: suffix != "" && New(shard, suffix) == Ok(id)
    ensures ParseShard(id) == Some(shard) <==>
      shard != "" && '.' !in shard && exists suffix :: suffix != "" && id == shard + "." + suffix
  {
    if ParseShard(id) == Some(shard) {
      var i := IndexOf(id, SEPARATOR).value;
      var suffix := id[i + 1..];
      assert id == Named(shard, suffix);
      assert suffix != "" && New(shard, suffix) == Ok(id) && id == shard + "." + suffix;
    }
    if shard != "" && '.' !in shard && exists suffix :: suffix != "" && id == shard + "." + suffix {
      var suffix :| suffix != "" && id == shard + "." + suffix;
      assert New(shard, suffix) == Ok(id);
    }
    if shard != "" && exists suffix :: suffix != "" && New(shard, suffix) == Ok(id) {
      var suffix :| suffix != "" && New(shard, suffix) == Ok(id);
      RoundTrip(shard, suffix);
    }
  }

  /** Every ID made for a non-empty shard parses back to that shard. */
  lemma RoundTrip(shard: string, suffix: string)
    requires suffix != ""
    ensures New(shard, suffix).Ok? ==> (ParseShard(New(shard, suffix).value) == Some(shard) <==> shard != "")
  {
    if SEPARATOR !in shard {
      var id := Named(shard, suffix);
      assert id[..|shard|] == shard;
      IndexOfFirst(id, SEPARATOR, |shard|);
    }
  }
}
