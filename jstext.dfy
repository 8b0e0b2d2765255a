/** The JavaScript built-ins the responder relies on, over strings of code
    points: truthiness of an optional field with its `||` fallback,
    `Array.prototype.join`, `String.prototype.split` on one character,
    `String.prototype.replace` with a one-character pattern (first occurrence
    only) and `String.prototype.trim`. */
module JsText {

  datatype Option<+T> = None | Some(value: T)

  /** JavaScript truthiness of an optional string field: a missing field
      (undefined or null) and the empty string are falsy. */
  predicate Truthy(o: Option<string>) {
    o.Some? && o.value != ""
  }

  /** The expression `o || fallback`: the value itself when it is truthy,
      otherwise the fallback; never empty when the fallback is not. */
  function OrElse(o: Option<string>, fallback: string): (r: string)
    ensures Truthy(o) ==> r == o.value
    ensures !Truthy(o) ==> r == fallback
    ensures fallback != "" ==> r != ""
  {
    if Truthy(o) then o.value else fallback
  }

  /** `parts.join(sep)`: the parts in order with `sep` between neighbours. */
  function Join(parts: seq<string>, sep: string): string
  {
    if |parts| == 0 then ""
    else if |parts| == 1 then parts[0]
    else parts[0] + sep + Join(parts[1..], sep)
  }

  /** `s.split(c)`: the maximal runs of `s` between occurrences of `c`, in
      order; there is always at least one piece and no piece holds `c`. */
  function Split(s: string, c: char): (r: seq<string>)
    ensures |r| >= 1
    ensures forall i :: 0 <= i < |r| ==> c !in r[i]
  {
    if s == [] then [""]
    else
      var rest := Split(s[1..], c);
      if s[0] == c then [""] + rest
      else [[s[0]] + rest[0]] + rest[1..]
  }

  /** Every piece of `ys` with `t` put in front of it. */
  function PrefixEach(t: string, ys: seq<string>): (r: seq<string>)
    ensures |r| == |ys|
    ensures forall i :: 0 <= i < |ys| ==> r[i] == t + ys[i]
  {
    seq(|ys|, i requires 0 <= i < |ys| => t + ys[i])
  }

  /** Joining the pieces of a concatenation is joining each half. */
  lemma {:induction false} JoinAppend(xs: seq<string>, ys: seq<string>, sep: string)
    requires xs != [] && ys != []
    ensures Join(xs + ys, sep) == Join(xs, sep) + sep + Join(ys, sep)
  {
    assert (xs + ys)[0] == xs[0];
    if |xs| == 1 {
      assert (xs + ys)[1..] == ys;
    } else {
      assert (xs + ys)[1..] == xs[1..] + ys;
      JoinAppend(xs[1..], ys, sep);
    }
  }

  /** Joining one more part in front. */
  lemma JoinCons(x: string, xs: seq<string>, sep: string)
    requires xs != []
    ensures Join([x] + xs, sep) == x + sep + Join(xs, sep)
  {
    assert ([x] + xs)[1..] == xs;
  }

  /** A string without the separator is a single piece. */
  lemma {:induction false} SplitWithoutSeparator(s: string, c: char)
    requires c !in s
    ensures Split(s, c) == [s]
  {
    if s != [] {
      SplitWithoutSeparator(s[1..], c);
      assert [s[0]] + s[1..] == s;
    }
  }

  /** Splitting at one occurrence of the separator splits each side. */
  lemma {:induction false} SplitAppend(x: string, y: string, c: char)
    ensures Split(x + [c] + y, c) == Split(x, c) + Split(y, c)
  {
    var s := x + [c] + y;
    if x == [] {
      assert s[0] == c && s[1..] == y;
    } else {
      assert s[0] == x[0] && s[1..] == x[1..] + [c] + y;
      SplitAppend(x[1..], y, c);
      if x[0] != c {
        var rx := Split(x[1..], c);
        assert (rx + Split(y, c))[1..] == rx[1..] + Split(y, c);
      }
    }
  }

  /** A separator-free prefix glues onto the first piece. */
  lemma {:induction false} SplitPrepend(t: string, s: string, c: char)
    requires c !in t
    ensures Split(t + s, c) == [t + Split(s, c)[0]] + Split(s, c)[1..]
  {
    if t != [] {
      var u := t + s;
      assert u[0] == t[0] && u[1..] == t[1..] + s;
      SplitPrepend(t[1..], s, c);
      assert [t[0]] + (t[1..] + Split(s, c)[0]) == t + Split(s, c)[0];
    } else {
      var r := Split(s, c);
      assert t + s == s;
      assert t + r[0] == r[0];
      assert r == [r[0]] + r[1..];
    }
  }

  /** Round trip: splitting a join whose separator is `c` followed by
      `c`-free text `t` gives back the parts, each but the first with `t`
      in front, provided no part holds `c`. */
  lemma {:induction false} SplitJoin(xs: seq<string>, c: char, t: string)
    requires xs != []
    requires c !in t
    requires forall i :: 0 <= i < |xs| ==> c !in xs[i]
    ensures Split(Join(xs, [c] + t), c) == [xs[0]] + PrefixEach(t, xs[1..])
  {
    if |xs| == 1 {
      SplitWithoutSeparator(xs[0], c);
      assert PrefixEach(t, xs[1..]) == [];
    } else {
      var rest := Join(xs[1..], [c] + t);
      assert Join(xs, [c] + t) == xs[0] + [c] + (t + rest);
      SplitAppend(xs[0], t + rest, c);
      SplitWithoutSeparator(xs[0], c);
      SplitJoin(xs[1..], c, t);
      SplitPrepend(t, rest, c);
      assert Split(t + rest, c) == PrefixEach(t, xs[1..]);
    }
  }

  /** The plain round trip for a one-character separator. */
  lemma {:induction false} SplitJoinChar(xs: seq<string>, c: char)
    requires xs != []
    requires forall i :: 0 <= i < |xs| ==> c !in xs[i]
    ensures Split(Join(xs, [c]), c) == xs
  {
    SplitJoin(xs, c, "");
    assert [c] + "" == [c];
    var ys := xs[1..];
    forall i | 0 <= i < |ys| ensures PrefixEach("", ys)[i] == ys[i] {
      assert "" + ys[i] == ys[i];
    }
    assert PrefixEach("", ys) == ys;
  }

  /** Splitting a join whose one inner part `m` may hold the separator
      gives back the other parts around the pieces of `m`. */
  lemma SplitJoinAround(a: seq<string>, m: string, z: seq<string>, c: char)
    requires a != [] && z != []
    requires forall i :: 0 <= i < |a| ==> c !in a[i]
    requires forall i :: 0 <= i < |z| ==> c !in z[i]
    ensures Split(Join(a + [m] + z, [c]), c) == a + Split(m, c) + z
  {
    ConcatAssoc(a, [m], z);
    JoinAppend(a, [m] + z, [c]);
    JoinCons(m, z, [c]);
    var ja, jz := Join(a, [c]), Join(z, [c]);
    assert Join(a + [m] + z, [c]) == ja + [c] + (m + [c] + jz);
    SplitAppend(ja, m + [c] + jz, c);
    SplitAppend(m, jz, c);
    SplitJoinChar(a, c);
    SplitJoinChar(z, c);
    ConcatAssoc(a, Split(m, c), z);
  }

  lemma ConcatAssoc<T>(x: seq<T>, y: seq<T>, z: seq<T>)
    ensures x + y + z == x + (y + z)
  {
  }

  /** The other round trip: joining the pieces of a split with the
      separator gives back the string. */
  lemma {:induction false} JoinSplit(s: string, c: char)
    ensures Join(Split(s, c), [c]) == s
  {
    if s != [] {
      var rest := Split(s[1..], c);
      JoinSplit(s[1..], c);
      if s[0] == c {
        assert Join([""] + rest, [c]) == "" + [c] + Join(rest, [c]) by {
          JoinAppend([""], rest, [c]);
        }
      } else if |rest| > 1 {
        assert Join(rest, [c]) == rest[0] + [c] + Join(rest[1..], [c]);
        assert Join([[s[0]] + rest[0]] + rest[1..], [c])
            == [s[0]] + rest[0] + [c] + Join(rest[1..], [c]) by {
          JoinAppend([[s[0]] + rest[0]], rest[1..], [c]);
        }
      }
    }
  }

  /** `text` holds `run` with `sep` right before it and right after it,
      starting at index `i`. */
  ghost predicate DelimitedAt(text: string, run: string, sep: string, i: int) {
    && 0 <= i && i + |sep| + |run| + |sep| <= |text|
    && text[i..i + |sep| + |run| + |sep|] == sep + run + sep
  }

  /** `text` holds `run` with `sep` right before it and right after it. */
  ghost predicate Delimited(text: string, run: string, sep: string) {
    exists i :: DelimitedAt(text, run, sep, i)
  }

  /** A run of consecutive inner parts of a join appears in the joined text,
      joined the same way, with the separator on both sides. */
  lemma JoinDelimits(parts: seq<string>, i: nat, j: nat, sep: string)
    requires 0 < i <= j < |parts| - 1
    ensures Delimited(Join(parts, sep), Join(parts[i..j + 1], sep), sep)
  {
    var a, m, z := parts[..i], parts[i..j + 1], parts[j + 1..];
    assert parts == (a + m) + z;
    JoinAppend(a + m, z, sep);
    JoinAppend(a, m, sep);
    var text := Join(parts, sep);
    var run := Join(m, sep);
    var k := |Join(a, sep)|;
    assert text == Join(a, sep) + (sep + run + sep) + Join(z, sep);
    assert text[k..k + |sep| + |run| + |sep|] == sep + run + sep;
    assert DelimitedAt(text, run, sep, k);
  }

  predicate StartsWith(t: string, prefix: string) {
    |prefix| <= |t| && t[..|prefix|] == prefix
  }

  predicate EndsWith(t: string, suffix: string) {
    |suffix| <= |t| && t[|t| - |suffix|..] == suffix
  }

  /** A join starts with the join of its first `i` parts and a separator. */
  lemma JoinHead(parts: seq<string>, i: nat, sep: string)
    requires 0 < i < |parts|
    ensures StartsWith(Join(parts, sep), Join(parts[..i], sep) + sep)
  {
    assert parts == parts[..i] + parts[i..];
    JoinAppend(parts[..i], parts[i..], sep);
  }

  /** A join ends with a separator and the join of its parts from `i` on. */
  lemma JoinTail(parts: seq<string>, i: nat, sep: string)
    requires 0 < i < |parts|
    ensures EndsWith(Join(parts, sep), sep + Join(parts[i..], sep))
  {
    assert parts == parts[..i] + parts[i..];
    JoinAppend(parts[..i], parts[i..], sep);
  }

  lemma EndsWithShorter(t: string, x: string, suffix: string)
    requires EndsWith(t, x + suffix)
    ensures EndsWith(t, suffix)
  {
    assert t[|t| - |suffix|..] == (x + suffix)[|x|..];
  }

  lemma EndsWithAppend(t: string, suffix: string, n: string)
    requires EndsWith(t, suffix)
    ensures EndsWith(t + n, suffix + n)
  {
    assert (t + n)[|t + n| - |suffix + n|..] == t[|t| - |suffix|..] + n;
  }

  /** The WhiteSpace and LineTerminator code points of ECMAScript, the ones
      `trim` removes. */
  predicate IsSpace(ch: char) {
    || ch == '\t' || ch == '\n' || ch == '\U{000B}' || ch == '\U{000C}' || ch == '\r'
    || ch == ' ' || ch == '\U{00A0}' || ch == '\U{1680}'
    || ('\U{2000}' <= ch <= '\U{200A}')
    || ch == '\U{2028}' || ch == '\U{2029}' || ch == '\U{202F}' || ch == '\U{205F}'
    || ch == '\U{3000}' || ch == '\U{FEFF}'
  }

  predicate AllSpaces(s: string) {
    forall k :: 0 <= k < |s| ==> IsSpace(s[k])
  }

  /** Where the run of whitespace of `s` that starts at `i` ends. */
  function SpaceRunEnd(s: string, i: nat): (e: nat)
    requires i <= |s|
    ensures i <= e <= |s|
    ensures forall k :: i <= k < e ==> IsSpace(s[k])
    ensures e < |s| ==> !IsSpace(s[e])
    decreases |s| - i
  {
    if i < |s| && IsSpace(s[i]) then SpaceRunEnd(s, i + 1) else i
  }

  /** Where the run of whitespace of `s` that ends at `j` starts, going no
      lower than `lo`. */
  function SpaceRunStart(s: string, lo: nat, j: nat): (b: nat)
    requires lo <= j <= |s|
    ensures lo <= b <= j
    ensures forall k :: b <= k < j ==> IsSpace(s[k])
    ensures b > lo ==> !IsSpace(s[b - 1])
  {
    if j > lo && IsSpace(s[j - 1]) then SpaceRunStart(s, lo, j - 1) else j
  }

  /** `s.trim()`: the factor of `s` left once the leading whitespace and
      then the trailing whitespace are removed. It has no whitespace at
      either end, and everything of `s` around it is whitespace. */
  function Trim(s: string): (r: string)
    ensures r != [] ==> !IsSpace(r[0]) && !IsSpace(r[|r| - 1])
    ensures var i := SpaceRunEnd(s, 0);
      && i + |r| <= |s| && r == s[i..i + |r|]
      && (forall k :: 0 <= k < i ==> IsSpace(s[k]))
      && (forall k :: i + |r| <= k < |s| ==> IsSpace(s[k]))
  {
    var i := SpaceRunEnd(s, 0);
    s[i..SpaceRunStart(s, i, |s|)]
  }

  lemma {:induction false} SpaceRunEndAt(s: string, i: nat, e: nat)
    requires i <= e <= |s|
    requires forall k :: i <= k < e ==> IsSpace(s[k])
    requires e < |s| ==> !IsSpace(s[e])
    ensures SpaceRunEnd(s, i) == e
    decreases e - i
  {
    if i < e {
      SpaceRunEndAt(s, i + 1, e);
    }
  }

  lemma {:induction false} SpaceRunStartAt(s: string, lo: nat, b: nat, j: nat)
    requires lo <= b <= j <= |s|
    requires forall k :: b <= k < j ==> IsSpace(s[k])
    requires b > lo ==> !IsSpace(s[b - 1])
    ensures SpaceRunStart(s, lo, j) == b
    decreases j - b
  {
    if b < j {
      SpaceRunStartAt(s, lo, b, j - 1);
    }
  }

  /** Trimming is determined by its result: whatever whitespace surrounds a
      string with no whitespace at its ends, trimming removes exactly it. */
  lemma TrimSurrounded(a: string, m: string, b: string)
    requires AllSpaces(a) && AllSpaces(b)
    requires m != [] ==> !IsSpace(m[0]) && !IsSpace(m[|m| - 1])
    ensures Trim(a + m + b) == m
  {
    var s := a + m + b;
    var i, j := |a|, |a| + |m|;
    assert forall k :: 0 <= k < i ==> s[k] == a[k];
    assert forall k :: j <= k < |s| ==> s[k] == b[k - j];
    if m == [] {
      SpaceRunEndAt(s, 0, |s|);
      SpaceRunStartAt(s, |s|, |s|, |s|);
    } else {
      assert s[i] == m[0] && s[j - 1] == m[|m| - 1];
      SpaceRunEndAt(s, 0, i);
      SpaceRunStartAt(s, i, j, |s|);
      assert s[i..j] == m;
    }
  }

  /** Trimming twice is trimming once. */
  lemma TrimIdempotent(s: string)
    ensures Trim(Trim(s)) == Trim(s)
  {
    var r := Trim(s);
    assert SpaceRunEnd(r, 0) == 0;
    assert SpaceRunStart(r, 0, |r|) == |r|;
    assert r[0..|r|] == r;
  }

  /** The index of the first `c` in `s`, or `|s|` when there is none. */
  function FirstIndex(s: string, c: char): (i: nat)
    ensures i <= |s|
    ensures i < |s| ==> s[i] == c
    ensures forall k :: 0 <= k < i ==> s[k] != c
  {
    if s == [] || s[0] == c then 0 else 1 + FirstIndex(s[1..], c)
  }

  /** `s.replace(from, to)` for one-character strings: only the first
      occurrence of `from` becomes `to`; every other position is kept. */
  function ReplaceFirst(s: string, from: char, to: char): (r: string)
    ensures |r| == |s|
    ensures forall k :: 0 <= k < |s| ==> r[k] == if k == FirstIndex(s, from) then to else s[k]
  {
    if s == [] then s
    else if s[0] == from then [to] + s[1..]
    else [s[0]] + ReplaceFirst(s[1..], from, to)
  }

  /** Replacing in `a + [from] + b` with `a` free of `from` changes exactly
      that one character. */
  lemma ReplaceFirstAt(a: string, b: string, from: char, to: char)
    requires from !in a
    ensures ReplaceFirst(a + [from] + b, from, to) == a + [to] + b
  {
    var s, t := a + [from] + b, a + [to] + b;
    var i := FirstIndex(s, from);
    assert i == |a| by {
      assert s[|a|] == from;
      assert forall j :: 0 <= j < |a| ==> s[j] == a[j];
    }
    var r := ReplaceFirst(s, from, to);
    forall k | 0 <= k < |s|
      ensures r[k] == t[k]
    {
      if k < |a| {
        assert s[k] == a[k] == t[k];
      } else if k > |a| {
        assert s[k] == b[k - |a| - 1] == t[k];
      }
    }
  }
}
