/**
 * The JavaScript string operations the card pipeline relies on, on `seq<char>`.
 *
 * Characters are Unicode scalar values. `IsSpace` is exactly the class that
 * JavaScript's `\s` and `String.prototype.trim` use; case mapping is ASCII only.
 */
module Text {

  /** JavaScript's `\s`: WhiteSpace and LineTerminator of ECMAScript. */
  predicate IsSpace(c: char) {
    c == '\t' || c == '\n' || c == '\U{000B}' || c == '\U{000C}' || c == '\r' || c == ' '
    || c == '\U{00A0}' || c == '\U{1680}' || ('\U{2000}' <= c <= '\U{200A}')
    || c == '\U{2028}' || c == '\U{2029}' || c == '\U{202F}' || c == '\U{205F}'
    || c == '\U{3000}' || c == '\U{FEFF}'
  }

  /** Neither the first nor the last character is whitespace. */
  predicate NoEdgeSpace(s: string) {
    s == [] || (!IsSpace(s[0]) && !IsSpace(s[|s| - 1]))
  }

  /** No two adjacent characters are both whitespace. */
  ghost predicate NoDoubleSpace(s: string) {
    forall i, j :: 0 <= i < j < |s| && j == i + 1 ==> !IsSpace(s[i]) || !IsSpace(s[j])
  }

  lemma PrefixNoDoubleSpace(p: string, s: string)
    requires p <= s && NoDoubleSpace(s)
    ensures NoDoubleSpace(p)
  {
    assert forall i :: 0 <= i < |p| ==> p[i] == s[i];
  }

  /** A character goes in front of a string without double whitespace unless both it and the first character are whitespace. */
  lemma ConsNoDoubleSpace(c: char, rest: string)
    requires NoDoubleSpace(rest) && (rest == [] || !IsSpace(c) || !IsSpace(rest[0]))
    ensures NoDoubleSpace([c] + rest)
  {
    var r := [c] + rest;
    forall i, j | 0 <= i < j < |r| && j == i + 1 ensures !IsSpace(r[i]) || !IsSpace(r[j]) {
      if i > 0 {
        assert r[i] == rest[i - 1] && r[j] == rest[j - 1];
      }
    }
  }

  // ---------------------------------------------------------------- trim

  function TrimStart(s: string): (r: string)
    ensures |r| <= |s| && r == s[|s| - |r|..]
    ensures r == [] || !IsSpace(r[0])
  {
    if s != [] && IsSpace(s[0]) then TrimStart(s[1..]) else s
  }

  /** Removes the maximal run of trailing whitespace. */
  function TrimEnd(s: string): (r: string)
    ensures r <= s
    ensures r == [] || !IsSpace(r[|r| - 1])
    ensures forall i :: |r| <= i < |s| ==> IsSpace(s[i])
  {
    if s != [] && IsSpace(s[|s| - 1]) then TrimEnd(s[..|s| - 1]) else s
  }

  /** `String.prototype.trim`. */
  function Trim(s: string): (r: string)
    ensures exists i: nat :: SpaceAround(s, r, i)
    ensures NoEdgeSpace(r)
    ensures |r| <= |s|
    ensures forall c :: c in r ==> c in s
    ensures NoEdgeSpace(s) ==> r == s
  {
    var t := TrimStart(s);
    var r := TrimEnd(t);
    TrimKeepsChars(s, t, r);
    TrimEdges(t, r);
    TrimNoop(s);
    TrimStartDrops(s);
    TrimEndDrops(t, r);
    Sandwich(s, t, r);
    r
  }

  /** Every character of `w` is whitespace. */
  ghost predicate AllSpace(w: string) {
    forall k :: 0 <= k < |w| ==> IsSpace(w[k])
  }

  /** `s` is a whitespace prefix of length `i`, then `r`, then a whitespace suffix. */
  ghost predicate SpaceAround(s: string, r: string, i: nat) {
    i + |r| <= |s| && s == s[..i] + r + s[i + |r|..] && AllSpace(s[..i]) && AllSpace(s[i + |r|..])
  }

  lemma Sandwich(s: string, t: string, r: string)
    requires |t| <= |s| && t == s[|s| - |t|..] && r <= t
    requires AllSpace(s[..|s| - |t|]) && AllSpace(t[|r|..])
    ensures SpaceAround(s, r, |s| - |t|)
  {
    var i := |s| - |t|;
    assert r == t[..|r|];
    assert t[|r|..] == s[i + |r|..];
    assert s == s[..i] + t && t == r + t[|r|..];
  }

  /** The characters `TrimStart` drops are whitespace. */
  lemma {:induction false} TrimStartDrops(s: string)
    ensures AllSpace(s[..|s| - |TrimStart(s)|])
  {
    if s != [] && IsSpace(s[0]) {
      TrimStartDrops(s[1..]);
      var n := |s| - |TrimStart(s)|;
      assert s[..n] == [s[0]] + s[1..][..n - 1];
    }
  }

  /** The characters `TrimEnd` drops are whitespace. */
  lemma TrimEndDrops(t: string, r: string)
    requires r <= t && forall k :: |r| <= k < |t| ==> IsSpace(t[k])
    ensures AllSpace(t[|r|..])
  {
  }

  /** Whitespace in front of a string that does not start with whitespace is exactly what `TrimStart` drops. */
  lemma {:induction false} TrimStartSpaces(u: string, t: string)
    requires AllSpace(u) && (t == [] || !IsSpace(t[0]))
    ensures TrimStart(u + t) == t
  {
    if u == [] {
      assert u + t == t;
    } else {
      assert IsSpace(u[0]);
      AllSpaceTail(u);
      TrimStartSpaces(u[1..], t);
      ConsAppend(u, t);
    }
  }

  lemma AllSpaceTail(u: string)
    requires u != [] && AllSpace(u)
    ensures AllSpace(u[1..])
  {
    forall k | 0 <= k < |u| - 1 ensures IsSpace(u[1..][k]) {
      assert u[1..][k] == u[k + 1];
    }
  }

  lemma ConsAppend<T>(u: seq<T>, t: seq<T>)
    requires u != []
    ensures (u + t)[0] == u[0] && (u + t)[1..] == u[1..] + t
  {
  }

  /** Whitespace after a string that does not end in whitespace is exactly what `TrimEnd` drops. */
  lemma {:induction false} TrimEndSpaces(t: string, v: string)
    requires AllSpace(v) && (t == [] || !IsSpace(t[|t| - 1]))
    ensures TrimEnd(t + v) == t
  {
    if v == [] {
      assert t + v == t;
    } else {
      var v0 := v[..|v| - 1];
      assert IsSpace(v[|v| - 1]);
      assert AllSpace(v0) by {
        forall k | 0 <= k < |v0| ensures IsSpace(v0[k]) {
          assert v0[k] == v[k];
        }
      }
      TrimEndSpaces(t, v0);
      assert (t + v)[|t + v| - 1] == v[|v| - 1] && (t + v)[..|t + v| - 1] == t + v0;
    }
  }

  /** Trimming a name with whitespace around it gives the name. */
  lemma TrimAround(u: string, s: string, v: string)
    requires AllSpace(u) && AllSpace(v) && s != [] && NoEdgeSpace(s)
    ensures Trim(u + s + v) == s
  {
    assert u + s + v == u + (s + v);
    TrimStartSpaces(u, s + v);
    TrimEndSpaces(s, v);
  }

  lemma TrimEdges(t: string, r: string)
    requires t == [] || !IsSpace(t[0])
    requires r <= t && (r == [] || !IsSpace(r[|r| - 1]))
    ensures NoEdgeSpace(r)
  {
    if r != [] {
      assert r[0] == t[0];
    }
  }

  lemma TrimNoop(s: string)
    ensures NoEdgeSpace(s) ==> TrimStart(s) == s && TrimEnd(s) == s
  {
  }

  lemma TrimKeepsChars(s: string, t: string, r: string)
    requires |t| <= |s| && t == s[|s| - |t|..] && r <= t
    ensures forall c :: c in r ==> c in s
  {
    forall c | c in r ensures c in s {
      var i :| 0 <= i < |r| && r[i] == c;
      assert s[|s| - |t| + i] == c;
    }
  }

  // ------------------------------------------------------- case mapping

  function LowerChar(c: char): char {
    if 'A' <= c <= 'Z' then (c as int + 32) as char else c
  }

  function UpperChar(c: char): char {
    if 'a' <= c <= 'z' then (c as int - 32) as char else c
  }

  /** `toLowerCase`, restricted to ASCII letters. */
  function Lower(s: string): (r: string)
    ensures |r| == |s|
  {
    seq(|s|, i requires 0 <= i < |s| => LowerChar(s[i]))
  }

  /** `toUpperCase`, restricted to ASCII letters. */
  function Upper(s: string): (r: string)
    ensures |r| == |s|
  {
    seq(|s|, i requires 0 <= i < |s| => UpperChar(s[i]))
  }

  /** Every character of `s` is replaced: `from` becomes `to` (`replace(/-/g, " ")`). */
  function ReplaceChar(s: string, from: char, to: char): (r: string)
    ensures |r| == |s|
    ensures from !in s ==> r == s
  {
    seq(|s|, i requires 0 <= i < |s| => if s[i] == from then to else s[i])
  }

  // ------------------------------------------------------ split and join

  /** `s.split(sep)` for a one-character separator: never empty, empty pieces kept. */
  function Split(s: string, sep: char): (r: seq<string>)
    ensures |r| >= 1
    ensures forall w :: w in r ==> sep !in w
  {
    if s == [] then [""]
    else
      var rest := Split(s[1..], sep);
      if s[0] == sep then [""] + rest
      else [[s[0]] + rest[0]] + rest[1..]
  }

  /** Splitting at a separator placed between two strings splits each of them on its own. */
  lemma {:induction false} SplitAppend(a: string, b: string, sep: char)
    ensures Split(a + [sep] + b, sep) == Split(a, sep) + Split(b, sep)
  {
    var s := a + [sep] + b;
    if a == [] {
      assert s[0] == sep && s[1..] == b;
    } else {
      assert s[0] == a[0] && s[1..] == a[1..] + [sep] + b;
      SplitAppend(a[1..], b, sep);
      if a[0] != sep {
        SplitConsAppend(a[0], Split(a[1..], sep), Split(b, sep));
      }
    }
  }

  /** Gluing a character onto the first piece of a concatenation of piece lists. */
  lemma SplitConsAppend(c: char, xs: seq<string>, ys: seq<string>)
    requires |xs| >= 1
    ensures [[c] + (xs + ys)[0]] + (xs + ys)[1..] == ([[c] + xs[0]] + xs[1..]) + ys
  {
    assert (xs + ys)[0] == xs[0];
    assert (xs + ys)[1..] == xs[1..] + ys;
  }

  /** A string without the separator is a single piece. */
  lemma {:induction false} SplitNoSep(s: string, sep: char)
    requires sep !in s
    ensures Split(s, sep) == [s]
  {
    if s != [] {
      assert sep !in s[1..] by {
        assert forall c :: c in s[1..] ==> c in s;
      }
      SplitNoSep(s[1..], sep);
      assert [s[0]] + s[1..] == s;
    }
  }

  /** `ws.join(sep)`. */
  function Join(ws: seq<string>, sep: char): string
    requires |ws| >= 1
  {
    if |ws| == 1 then ws[0] else ws[0] + [sep] + Join(ws[1..], sep)
  }

  /** Joining the pieces of a split with the same separator gives the string back. */
  lemma {:induction false} JoinSplit(s: string, sep: char)
    ensures Join(Split(s, sep), sep) == s
  {
    if s != [] {
      var rest := Split(s[1..], sep);
      JoinSplit(s[1..], sep);
      if s[0] != sep {
        JoinPrepend(s[0], rest, sep);
      }
      assert s == [s[0]] + s[1..];
    }
  }

  /** Gluing a character onto the first piece glues it onto the joined string. */
  lemma JoinPrepend(c: char, ws: seq<string>, sep: char)
    requires |ws| >= 1
    ensures Join([[c] + ws[0]] + ws[1..], sep) == [c] + Join(ws, sep)
  {
    var vs := [[c] + ws[0]] + ws[1..];
    if |ws| > 1 {
      assert vs[1..] == ws[1..];
      assert Join(vs, sep) == [c] + ws[0] + [sep] + Join(ws[1..], sep);
    }
  }

  /** The first piece of a split is a prefix of the string, followed by the separator or the end. */
  lemma {:induction false} SplitHead(s: string, sep: char)
    ensures Split(s, sep)[0] <= s
    ensures Split(s, sep)[0] == s || Split(s, sep)[0] + [sep] <= s
  {
    if s != [] && s[0] != sep {
      SplitHead(s[1..], sep);
    }
  }

  // ---------------------------------------------------------- substrings

  /** `hay.includes(needle)`. */
  predicate Contains(hay: string, needle: string)
    decreases |hay|
  {
    needle <= hay || (hay != [] && Contains(hay[1..], needle))
  }

  /** The substring `needle` at some position of `hay` (reference definition). */
  ghost predicate OccursAt(hay: string, needle: string, i: nat) {
    i + |needle| <= |hay| && hay[i..i + |needle|] == needle
  }

  lemma {:induction false} ContainsOccurs(hay: string, needle: string)
    ensures Contains(hay, needle) <==> exists i: nat :: OccursAt(hay, needle, i)
    decreases |hay|
  {
    if needle <= hay {
      assert OccursAt(hay, needle, 0);
    } else if hay == [] {
      assert |needle| > 0;
    } else {
      ContainsOccurs(hay[1..], needle);
      if exists i: nat :: OccursAt(hay[1..], needle, i) {
        var i: nat :| OccursAt(hay[1..], needle, i);
        OccursShift(hay, needle, i);
      }
      if exists i: nat :: OccursAt(hay, needle, i) {
        var i: nat :| OccursAt(hay, needle, i);
        assert i != 0;
        OccursShift(hay, needle, i - 1);
      }
    }
  }

  /** An occurrence in the tail is an occurrence one position further in the whole. */
  lemma OccursShift(hay: string, needle: string, i: nat)
    requires hay != []
    ensures OccursAt(hay[1..], needle, i) <==> OccursAt(hay, needle, i + 1)
  {
    if i + 1 + |needle| <= |hay| {
      assert hay[1..][i..i + |needle|] == hay[i + 1..i + 1 + |needle|];
    }
  }

  /** `s.replace(pat, rep)` with a string pattern: only the first occurrence is replaced. */
  function ReplaceFirst(s: string, pat: string, rep: string): (r: string)
    ensures !Contains(s, pat) ==> r == s
    decreases |s|
  {
    if pat <= s then rep + s[|pat|..]
    else if s == [] then s
    else [s[0]] + ReplaceFirst(s[1..], pat, rep)
  }

  /** `replace` with a string pattern acts at the first occurrence of the pattern and nowhere else. */
  lemma {:induction false} ReplaceFirstAt(s: string, pat: string, rep: string, i: nat)
    requires OccursAt(s, pat, i)
    requires forall j: nat :: j < i ==> !OccursAt(s, pat, j)
    ensures ReplaceFirst(s, pat, rep) == s[..i] + rep + s[i + |pat|..]
    decreases i
  {
    if i == 0 {
      assert s[..|pat|] == pat;
    } else {
      assert !OccursAt(s, pat, 0);
      ReplaceFirstSkip(s, pat, rep);
      forall j: nat | j < i - 1 ensures !OccursAt(s[1..], pat, j) {
        OccursShift(s, pat, j);
      }
      OccursShift(s, pat, i - 1);
      ReplaceFirstAt(s[1..], pat, rep, i - 1);
      SliceShift(s, i, i + |pat|);
    }
  }

  lemma ReplaceFirstSkip(s: string, pat: string, rep: string)
    requires s != [] && !OccursAt(s, pat, 0)
    ensures ReplaceFirst(s, pat, rep) == [s[0]] + ReplaceFirst(s[1..], pat, rep)
  {
    assert !(pat <= s);
  }

  lemma SliceShift(s: string, i: nat, k: nat)
    requires 0 < i <= k <= |s|
    ensures [s[0]] + s[1..][..i - 1] == s[..i] && s[1..][k - 1..] == s[k..]
  {
  }

  // ------------------------------------------------------------- lengths

  /** JavaScript's `length`: characters outside the Basic Multilingual Plane count twice. */
  function Utf16Length(s: string): (n: nat)
    ensures |s| <= n <= 2 * |s|
  {
    if s == [] then 0
    else (if s[0] as int >= 0x1_0000 then 2 else 1) + Utf16Length(s[1..])
  }

  // ------------------------------------------------------------- numbers

  function DigitChar(d: nat): (c: char)
    requires d < 10
    ensures '0' <= c <= '9'
  {
    (d + '0' as int) as char
  }

  /** `n.toString()` for a non-negative integer. */
  function DecimalString(n: nat): (r: string)
    ensures r != []
    ensures forall c :: c in r ==> '0' <= c <= '9'
  {
    if n < 10 then [DigitChar(n)] else DecimalString(n / 10) + [DigitChar(n % 10)]
  }
}
