/**
 Batch identifiers: `shard_<s>_batch_<i>`, prefixed with the scope of the job and a double
 underscore. Identifiers never collide; splitting one back works for exactly the scopes named
 in `SplitRoundTrip`.
 */
module BatchIds {
  import opened Collections

  const SEPARATOR := "__"

  // ---------------------------------------------------------------- decimal numbers

  function DigitChar(d: nat): (c: char)
    requires d < 10
    ensures '0' <= c <= '9'
  {
    '0' + d as char
  }

  function Decimal(n: nat): (s: string)
    ensures s != [] && forall i :: 0 <= i < |s| ==> '0' <= s[i] <= '9'
  {
    if n < 10 then [DigitChar(n)] else Decimal(n / 10) + [DigitChar(n % 10)]
  }

  function Value(s: string): int {
    if s == [] then 0 else 10 * Value(s[..|s| - 1]) + (s[|s| - 1] as int - '0' as int)
  }

  lemma {:induction false} DecimalRoundTrip(n: nat)
    ensures Value(Decimal(n)) == n
  {
    if n >= 10 {
      DecimalRoundTrip(n / 10);
      assert Decimal(n)[..|Decimal(n)| - 1] == Decimal(n / 10);
    } else {
      assert Decimal(n)[..0] == [];
    }
  }

  // ---------------------------------------------------------------- identifiers

  function BaseId(shard: nat, index: nat): string {
    "shard_" + (Decimal(shard) + "_" + ("batch_" + Decimal(index)))
  }

  predicate Space(c: char) {
    c in {' ', '\t', '\n', '\r', '\U{0b}', '\U{0c}'}
  }

  function Strip(s: string): string
    decreases |s|
  {
    if s == [] then s
    else if Space(s[0]) then Strip(s[1..])
    else if Space(s[|s| - 1]) then Strip(s[..|s| - 1])
    else s
  }

  function ReplaceSlashes(s: string): (r: string)
    ensures |r| == |s| && '/' !in r && '\\' !in r
  {
    seq(|s|, i requires 0 <= i < |s| => if s[i] == '/' || s[i] == '\\' then '-' else s[i])
  }

  function SanitizeScope(scope: Option<string>): (r: Option<string>)
    ensures r.Some? ==> r.value != []
  {
    if scope.None? || scope.value == [] then None
    else
      var clean := Strip(ReplaceSlashes(scope.value));
      if clean == [] then None else Some(clean)
  }

  function ScopedId(scope: Option<string>, base: string): string {
    var clean := SanitizeScope(scope);
    if clean.None? then base else clean.value + SEPARATOR + base
  }

  // What cleaning and naming do, character by character.

  /** The text between the outer white space. */
  ghost predicate Trimmed(s: string, i: nat, j: nat) {
    && i <= j <= |s|
    && (forall k :: 0 <= k < i ==> s[k] in {' ', '\t', '\n', '\r', '\U{0b}', '\U{0c}'})
    && (forall k :: j <= k < |s| ==> s[k] in {' ', '\t', '\n', '\r', '\U{0b}', '\U{0c}'})
    && (i < j ==> s[i] !in {' ', '\t', '\n', '\r', '\U{0b}', '\U{0c}'}
                  && s[j - 1] !in {' ', '\t', '\n', '\r', '\U{0b}', '\U{0c}'})
  }

  lemma {:induction false} StripTrims(s: string) returns (i: nat, j: nat)
    ensures Trimmed(s, i, j) && Strip(s) == s[i..j]
    decreases |s|
  {
    if s == [] {
      i, j := 0, 0;
    } else if Space(s[0]) {
      i, j := StripTrims(s[1..]);
      assert s == [s[0]] + s[1..];
      assert s[1..][i..j] == s[i + 1..j + 1];
      i, j := i + 1, j + 1;
    } else if Space(s[|s| - 1]) {
      var n := |s| - 1;
      i, j := StripTrims(s[..n]);
      assert s == s[..n] + [s[n]];
      assert s[..n][i..j] == s[i..j];
    } else {
      i, j := 0, |s|;
      assert s[0..|s|] == s;
    }
  }

  /**
   A scope is cleaned by taking off the white space around it and writing a dash for every slash and
   backslash; nothing is left of white space alone.
   */
  lemma CleaningIs(s: string) returns (i: nat, j: nat)
    ensures Trimmed(s, i, j) && SanitizeScope(None).None?
    ensures SanitizeScope(Some(s)).None? <==> i == j
    ensures SanitizeScope(Some(s)).Some? ==>
              var clean := SanitizeScope(Some(s)).value;
              && |clean| == j - i
              && forall k :: 0 <= k < j - i ==>
                   clean[k] == if s[i + k] == '/' || s[i + k] == '\\' then '-' else s[i + k]
  {
    var dashed := ReplaceSlashes(s);
    i, j := StripTrims(dashed);
    forall k | 0 <= k < |s| ensures Space(dashed[k]) <==> Space(s[k]) {
    }
    assert forall k :: 0 <= k < |s| ==> (Space(s[k]) <==> s[k] in {' ', '\t', '\n', '\r', '\U{0b}', '\U{0c}'});
    assert forall k :: 0 <= k < |s| ==>
      (Space(dashed[k]) <==> dashed[k] in {' ', '\t', '\n', '\r', '\U{0b}', '\U{0c}'});
  }

  /** A clean scope is kept, and the identifier reads scope__shard_<s>_batch_<i>. */
  lemma IdReads(scope: string, shard: nat, index: nat)
    requires scope != [] && '/' !in scope && '\\' !in scope && !Space(scope[0]) && !Space(scope[|scope| - 1])
    ensures ScopedId(Some(scope), BaseId(shard, index))
            == scope + "__" + "shard_" + Decimal(shard) + "_batch_" + Decimal(index)
    ensures ScopedId(None, BaseId(shard, index)) == "shard_" + Decimal(shard) + "_batch_" + Decimal(index)
  {
    assert ReplaceSlashes(scope) == scope;
  }

  /** Decimal numbers: the digits from '0' to '9', and one more digit for ten times as much. */
  lemma DecimalDigits(n: nat, d: nat)
    requires d < 10
    ensures Decimal(d) == ["0123456789"[d]]
    ensures n > 0 ==> Decimal(10 * n + d) == Decimal(n) + ["0123456789"[d]]
  {
    assert (10 * n + d) / 10 == n && (10 * n + d) % 10 == d;
  }

  /** Position of the first double underscore, or the length if there is none. */
  function FindSeparator(s: string): (i: nat)
    ensures i <= |s|
    ensures i < |s| ==> i + 1 < |s| && s[i] == '_' && s[i + 1] == '_'
    ensures forall j :: 0 <= j < i && j + 1 < |s| ==> !(s[j] == '_' && s[j + 1] == '_')
  {
    if |s| < 2 then |s|
    else if s[0] == '_' && s[1] == '_' then 0
    else
      var i := FindSeparator(s[1..]);
      assert forall j :: 1 <= j < |s| ==> s[j] == s[1..][j - 1];
      i + 1
  }

  function SplitScope(id: string): (Option<string>, string) {
    var i := FindSeparator(id);
    if i == |id| then (None, id)
    else (if i == 0 then None else Some(id[..i]), id[i + 2..])
  }

  /** An identifier is split at its first double underscore; a scope of nothing is no scope. */
  lemma SplitReads(scope: string, base: string, id: string)
    requires id == scope + "__" + base && NoDouble(scope) && (scope != [] ==> scope[|scope| - 1] != '_')
    ensures SplitScope(id) == (if scope == [] then None else Some(scope), base)
  {
    assert id[|scope|] == '_' && id[|scope| + 1] == '_';
    assert FindSeparator(id) == |scope|;
    assert id[..|scope|] == scope && id[|scope| + 2..] == base;
  }

  /** Without one it has no scope. */
  lemma UnsplitReads(id: string)
    requires NoDouble(id)
    ensures SplitScope(id) == (None, id)
  {
  }

  // ---------------------------------------------------------------- round trip

  predicate NoDouble(s: string) {
    forall i :: 0 <= i && i + 1 < |s| ==> !(s[i] == '_' && s[i + 1] == '_')
  }

  /**
   Splitting a scoped identifier gives back its scope and base exactly when the scope has no
   double underscore inside and no underscore at its end.
   */
  lemma SplitRoundTrip(scope: Option<string>, base: string)
    requires SanitizeScope(scope).Some?
    ensures var clean := SanitizeScope(scope).value;
            (SplitScope(ScopedId(scope, base)) == (Some(clean), base))
              == (NoDouble(clean) && clean[|clean| - 1] != '_')
  {
    var clean := SanitizeScope(scope).value;
    var id := clean + SEPARATOR + base;
    var i := FindSeparator(id);
    assert id[|clean|] == '_' && id[|clean| + 1] == '_';
    if NoDouble(clean) && clean[|clean| - 1] != '_' {
      assert i == |clean|;
      assert id[..i] == clean && id[i + 2..] == base;
    } else {
      if !NoDouble(clean) {
        var j :| 0 <= j && j + 1 < |clean| && clean[j] == '_' && clean[j + 1] == '_';
        assert id[j] == '_' && id[j + 1] == '_';
        assert i <= j;
      } else {
        assert id[|clean| - 1] == '_';
        assert i <= |clean| - 1;
      }
    }
  }

  /** Such a scope: the split moves the boundary one character to the left. */
  lemma SplitFailsForTrailingUnderscore()
    ensures ScopedId(Some("a_"), "b") == "a___b"
    ensures SplitScope("a___b") == (Some("a"), "_b")
  {
    assert ReplaceSlashes("a_") == "a_";
    assert SanitizeScope(Some("a_")) == Some("a_");
    var id := "a___b";
    var i := FindSeparator(id);
    assert id[1] == '_' && id[2] == '_' && i == 1;
    assert id[..1] == "a" && id[3..] == "_b";
  }

  // ---------------------------------------------------------------- no collisions

  lemma UnderscoreInside(a: string, r: string, a': string, r': string)
    requires |a| < |a'| && a + "_" + r == a' + "_" + r'
    ensures '_' in a'
  {
    assert (a + "_" + r)[|a|] == '_' && (a' + "_" + r')[|a|] == a'[|a|];
  }

  lemma CutAtUnderscore(a: string, r: string, a': string, r': string)
    requires '_' !in a && '_' !in a'
    requires a + "_" + r == a' + "_" + r'
    ensures a == a' && r == r'
  {
    var w := a + "_" + r;
    if |a| < |a'| {
      UnderscoreInside(a, r, a', r');
      assert false;
    } else if |a'| < |a| {
      UnderscoreInside(a', r', a, r);
      assert false;
    }
    assert a == w[..|a|] == a';
    assert r == w[|a| + 1..] == r';
  }

  lemma BaseIdInjective(s: nat, i: nat, s': nat, i': nat)
    requires BaseId(s, i) == BaseId(s', i')
    ensures s == s' && i == i'
  {
    var rest, rest' := "batch_" + Decimal(i), "batch_" + Decimal(i');
    assert BaseId(s, i)[6..] == Decimal(s) + "_" + rest;
    assert BaseId(s', i')[6..] == Decimal(s') + "_" + rest';
    CutAtUnderscore(Decimal(s), rest, Decimal(s'), rest');
    assert rest[6..] == Decimal(i) && rest'[6..] == Decimal(i');
    DecimalRoundTrip(s);
    DecimalRoundTrip(s');
    DecimalRoundTrip(i);
    DecimalRoundTrip(i');
  }

  lemma BaseIdShape(s: nat, i: nat)
    ensures NoDouble(BaseId(s, i)) && |BaseId(s, i)| > 0 && BaseId(s, i)[0] == 's'
  {
    var d, e := Decimal(s), Decimal(i);
    var id := BaseId(s, i);
    forall k | 6 <= k < 6 + |d| ensures id[k] != '_' {
      assert id[k] == d[k - 6];
    }
    forall k | 13 + |d| <= k < |id| ensures id[k] != '_' {
      assert id[k] == e[k - 13 - |d|];
    }
  }

  /**
   Two batches of any two jobs share an identifier only if their cleaned scopes, shards and
   indices are all the same.
   */
  lemma ScopedIdInjective(scope: Option<string>, s: nat, i: nat, scope': Option<string>, s': nat, i': nat)
    requires ScopedId(scope, BaseId(s, i)) == ScopedId(scope', BaseId(s', i'))
    ensures SanitizeScope(scope) == SanitizeScope(scope') && s == s' && i == i'
  {
    BaseIdShape(s, i);
    BaseIdShape(s', i');
    var a, a' := SanitizeScope(scope), SanitizeScope(scope');
    var b, b' := BaseId(s, i), BaseId(s', i');
    if a.Some? && a'.Some? {
      LastSeparator(a.value, b, a'.value, b');
    } else if a.Some? {
      SeparatorInside(a.value, b, b');
    } else if a'.Some? {
      SeparatorInside(a'.value, b', b);
    }
    BaseIdInjective(s, i, s', i');
  }

  lemma SeparatorInside(a: string, b: string, c: string)
    requires a + SEPARATOR + b == c
    ensures !NoDouble(c)
  {
    assert c[|a|] == '_' && c[|a| + 1] == '_';
  }

  lemma LastSeparator(a: string, b: string, a': string, b': string)
    requires NoDouble(b) && NoDouble(b') && |b| > 0 && |b'| > 0 && b[0] == 's' && b'[0] == 's'
    requires a + SEPARATOR + b == a' + SEPARATOR + b'
    ensures a == a' && b == b'
  {
    var w := a + SEPARATOR + b;
    if |b| < |b'| {
      TailHasSeparator(a, b, a', b');
      assert false;
    } else if |b'| < |b| {
      TailHasSeparator(a', b', a, b);
      assert false;
    }
    assert a == w[..|a|] == a';
    assert b == w[|a| + 2..] == b';
  }

  lemma TailHasSeparator(a: string, b: string, a': string, b': string)
    requires |b| < |b'| && a + SEPARATOR + b == a' + SEPARATOR + b'
    ensures b'[0] == '_' || !NoDouble(b')
  {
    var w := a + SEPARATOR + b;
    var d := |b'| - |b|;
    assert w[|a|] == '_' && w[|a| + 1] == '_';
    assert b'[d - 1] == w[|a| + 1];
    if d >= 2 {
      assert b'[d - 2] == w[|a|];
    }
  }
}
