/**
 * Picking and cleaning the card title in the text that OCR read off a card
 * image: `findCardName` and `cleanCardName` of the OCR utilities, and the
 * split of the detected text block into lines done by `processImage`.
 */
module CardName {
  import opened Wrappers
  import opened Text
  import Seqs

  // ------------------------------------------------------------- lines

  predicate NonEmpty(line: string) {
    line != []
  }

  function TrimAll(pieces: seq<string>): (r: seq<string>)
    ensures |r| == |pieces|
    ensures forall i :: 0 <= i < |r| ==> r[i] == Trim(pieces[i])
  {
    Seqs.Map(pieces, Trim)
  }

  /** `line` is the trimmed form of one of the newline-separated pieces of `text`. */
  ghost predicate LineOf(text: string, line: string) {
    exists p :: p in Split(text, '\n') && line == Trim(p)
  }

  /**
   * `description.split("\n").map(line => line.trim()).filter(line => line.length > 0)`:
   * the detected text as trimmed, non-empty, single lines. Every line is the
   * trimmed form of a piece of the text, and every piece that is not blank
   * gives a line.
   */
  function Lines(text: string): (r: seq<string>)
    ensures forall i :: 0 <= i < |r| ==> r[i] != [] && NoEdgeSpace(r[i]) && '\n' !in r[i]
    ensures forall i :: 0 <= i < |r| ==> LineOf(text, r[i])
    ensures forall p :: p in Split(text, '\n') && Trim(p) != [] ==> Trim(p) in r
  {
    var pieces := Split(text, '\n');
    var trimmed := TrimAll(pieces);
    var r := Seqs.Filter(trimmed, NonEmpty);
    LinesSound(text, pieces, trimmed, r);
    LinesComplete(pieces, trimmed, r);
    r
  }

  lemma LinesSound(text: string, pieces: seq<string>, trimmed: seq<string>, r: seq<string>)
    requires pieces == Split(text, '\n') && trimmed == TrimAll(pieces) && r == Seqs.Filter(trimmed, NonEmpty)
    ensures forall i :: 0 <= i < |r| ==> r[i] != [] && NoEdgeSpace(r[i]) && '\n' !in r[i] && LineOf(text, r[i])
  {
    forall i | 0 <= i < |r| ensures r[i] != [] && NoEdgeSpace(r[i]) && '\n' !in r[i] && LineOf(text, r[i]) {
      assert NonEmpty(r[i]) && r[i] in trimmed;
      var k :| 0 <= k < |trimmed| && trimmed[k] == r[i];
      assert pieces[k] in pieces;
    }
  }

  lemma LinesComplete(pieces: seq<string>, trimmed: seq<string>, r: seq<string>)
    requires trimmed == TrimAll(pieces) && r == Seqs.Filter(trimmed, NonEmpty)
    ensures forall p :: p in pieces && Trim(p) != [] ==> Trim(p) in r
  {
    forall p | p in pieces && Trim(p) != [] ensures Trim(p) in r {
      var k :| 0 <= k < |pieces| && pieces[k] == p;
      assert NonEmpty(trimmed[k]);
    }
  }

  /** A text without a newline gives its trimmed self as the only line, or no line when it is blank. */
  lemma OneLine(text: string)
    requires '\n' !in text
    ensures Lines(text) == if Trim(text) == [] then [] else [Trim(text)]
  {
    SplitNoSep(text, '\n');
    var t := Trim(text);
    assert TrimAll([text]) == [t];
    assert Lines(text) == Seqs.Filter([t], NonEmpty);
    FilterOne(t);
  }

  lemma FilterOne(t: string)
    ensures Seqs.Filter([t], NonEmpty) == if t == [] then [] else [t]
  {
    assert [t][1..] == [];
  }

  /** The lines of two texts joined by a newline are the lines of the first followed by those of the second. */
  lemma LinesAppend(a: string, b: string)
    ensures Lines(a + ['\n'] + b) == Lines(a) + Lines(b)
  {
    SplitAppend(a, b, '\n');
    var pa, pb := Split(a, '\n'), Split(b, '\n');
    Seqs.MapAppend(pa, pb, Trim);
    Seqs.FilterAppend(TrimAll(pa), TrimAll(pb), NonEmpty);
  }

  // ------------------------------------------------------- title line

  /**
   * The tests of `findCardName`: a line is skipped when it is at most 3 long
   * or holds `[`, `ATK/` or `DEF/`; otherwise it is the title when it is its
   * own upper-casing (the second length test is the source's, and redundant).
   */
  predicate IsTitleLine(line: string) {
    !(Utf16Length(line) <= 3 || Contains(line, "[") || Contains(line, "ATK/") || Contains(line, "DEF/"))
    && line == Upper(line) && Utf16Length(line) > 3
  }

  /** `lines[k]` is a title line and no earlier line is. */
  ghost predicate FirstTitleAt(lines: seq<string>, k: int) {
    0 <= k < |lines| && IsTitleLine(lines[k]) && forall j :: 0 <= j < k ==> !IsTitleLine(lines[j])
  }

  /** `findCardName`: the first title line, or null when no line qualifies. */
  function FindCardName(lines: seq<string>): (r: Option<string>)
    ensures r.Some? ==> r.value in lines && IsTitleLine(r.value)
    ensures r.Some? ==> exists k :: FirstTitleAt(lines, k) && lines[k] == r.value
    ensures r.None? <==> forall j :: 0 <= j < |lines| ==> !IsTitleLine(lines[j])
  {
    if lines == [] then None
    else if IsTitleLine(lines[0]) then
      assert FirstTitleAt(lines, 0);
      Some(lines[0])
    else
      var r := FindCardName(lines[1..]);
      FindStep(lines, r);
      r
  }

  /** What the search of the tail finds, the search of `lines` finds when `lines[0]` is no title. */
  lemma FindStep(lines: seq<string>, r: Option<string>)
    requires lines != [] && !IsTitleLine(lines[0])
    requires r.Some? ==> exists k :: FirstTitleAt(lines[1..], k) && lines[1..][k] == r.value
    requires r.None? <==> forall j :: 0 <= j < |lines| - 1 ==> !IsTitleLine(lines[1..][j])
    ensures r.Some? ==> exists k :: FirstTitleAt(lines, k) && lines[k] == r.value
    ensures r.None? <==> forall j :: 0 <= j < |lines| ==> !IsTitleLine(lines[j])
  {
    assert forall j :: 0 < j < |lines| ==> lines[j] == lines[1..][j - 1];
    if r.Some? {
      var k :| FirstTitleAt(lines[1..], k) && lines[1..][k] == r.value;
      assert FirstTitleAt(lines, k + 1);
    }
  }

  // ------------------------------------------------------- normaliser

  /** Han, Hiragana or Katakana: the blocks U+4E00-9FFF, U+3040-309F, U+30A0-30FF. */
  predicate IsCjk(c: char) {
    ('\U{4E00}' <= c <= '\U{9FFF}') || ('\U{3040}' <= c <= '\U{309F}') || ('\U{30A0}' <= c <= '\U{30FF}')
  }

  /** The number of whitespace characters at the start of `s`. */
  function SpaceRun(s: string): (n: nat)
    ensures n <= |s|
    ensures forall i :: 0 <= i < n ==> IsSpace(s[i])
    ensures n < |s| ==> !IsSpace(s[n])
  {
    if s != [] && IsSpace(s[0]) then 1 + SpaceRun(s[1..]) else 0
  }

  /**
   * `replace(/\s{2,}/g, " ")`: each run of two or more whitespace characters
   * becomes one space; a lone whitespace character (a tab, say) stays.
   */
  function CollapseSpaces(s: string): (r: string)
    ensures |r| <= |s|
    ensures NoDoubleSpace(r)
    ensures s != [] && !IsSpace(s[0]) ==> r != [] && r[0] == s[0]
    ensures s != [] && !IsSpace(s[|s| - 1]) ==> r != [] && r[|r| - 1] == s[|s| - 1]
    decreases |s|
  {
    if s == [] then []
    else if IsSpace(s[0]) then
      var n := SpaceRun(s);
      var rest := CollapseSpaces(s[n..]);
      var h := if n >= 2 then ' ' else s[0];
      ConsNoDoubleSpace(h, rest);
      [h] + rest
    else
      var rest := CollapseSpaces(s[1..]);
      ConsNoDoubleSpace(s[0], rest);
      [s[0]] + rest
  }

  /** A string without two adjacent whitespace characters has no run to collapse. */
  lemma {:induction false} CollapseIdentity(s: string)
    requires NoDoubleSpace(s)
    ensures CollapseSpaces(s) == s
    decreases |s|
  {
    if s != [] {
      if IsSpace(s[0]) {
        assert |s| > 1 ==> !IsSpace(s[1]);
        assert SpaceRun(s[1..]) == 0;
        assert SpaceRun(s) == 1;
      }
      assert NoDoubleSpace(s[1..]) by {
        forall i, j | 0 <= i < j < |s[1..]| && j == i + 1 ensures !IsSpace(s[1..][i]) || !IsSpace(s[1..][j]) {
          assert s[1..][i] == s[i + 1] && s[1..][j] == s[j + 1];
        }
      }
      CollapseIdentity(s[1..]);
      assert s[..1] == [s[0]];
      assert s == [s[0]] + s[1..];
    }
  }

  /** A whitespace run as long as the whole string. */
  lemma {:induction false} SpaceRunAll(w: string)
    requires AllSpace(w)
    ensures SpaceRun(w) == |w|
  {
    if w != [] {
      assert IsSpace(w[0]);
      assert AllSpace(w[1..]) by {
        forall k | 0 <= k < |w| - 1 ensures IsSpace(w[1..][k]) {
          assert w[1..][k] == w[k + 1];
        }
      }
      SpaceRunAll(w[1..]);
    }
  }

  /** A whitespace run that ends inside `a`, or at a non-space start of `t`, is not lengthened by `t`. */
  lemma {:induction false} SpaceRunStops(a: string, t: string)
    requires SpaceRun(a) < |a| || (t != [] && !IsSpace(t[0]))
    ensures SpaceRun(a + t) == SpaceRun(a)
  {
    if a == [] {
      assert a + t == t;
    } else {
      assert (a + t)[0] == a[0];
      if IsSpace(a[0]) {
        assert (a + t)[1..] == a[1..] + t;
        SpaceRunStops(a[1..], t);
      }
    }
  }

  /** An all-whitespace string collapses to one space when it is at least two long, and stays otherwise. */
  lemma CollapseRun(w: string)
    requires w != [] && AllSpace(w)
    ensures CollapseSpaces(w) == if |w| >= 2 then " " else w
  {
    assert IsSpace(w[0]);
    SpaceRunAll(w);
    assert w[|w|..] == [];
    assert |w| == 1 ==> w == [w[0]];
  }

  /** Collapsing acts on each side of a non-whitespace character separately and keeps that character. */
  lemma {:induction false} CollapseSplit(a: string, c: char, b: string)
    requires !IsSpace(c)
    ensures CollapseSpaces(a + [c] + b) == CollapseSpaces(a) + [c] + CollapseSpaces(b)
    decreases |a|
  {
    var s := a + [c] + b;
    if a == [] {
      DropAround(a, c, b, 0);
      CollapseWord(s);
    } else {
      var n := if IsSpace(a[0]) then SpaceRun(a) else 1;
      DropAround(a, c, b, n);
      if IsSpace(a[0]) {
        SpaceRunStops(a, [c] + b);
      }
      CollapseHead(s);
      CollapseHead(a);
      CollapseSplit(a[n..], c, b);
      assert CollapsedHead(s) == CollapsedHead(a);
      Regroup([CollapsedHead(a)], CollapseSpaces(a[n..]), c, CollapseSpaces(b));
    }
  }

  lemma Regroup<T>(h: seq<T>, x: seq<T>, c: T, y: seq<T>)
    ensures h + (x + [c] + y) == h + x + [c] + y
  {
  }

  lemma DropAround<T>(a: seq<T>, c: T, b: seq<T>, n: nat)
    requires n <= |a|
    ensures a + ([c] + b) == a + [c] + b
    ensures (a + [c] + b)[0] == if a == [] then c else a[0]
    ensures (a + [c] + b)[n..] == a[n..] + [c] + b
    ensures a == [] ==> (a + [c] + b)[1..] == b
  {
  }

  /** What collapsing puts first for a string starting with `s[0]`. */
  function CollapsedHead(s: string): char
    requires s != []
  {
    if IsSpace(s[0]) && SpaceRun(s) >= 2 then ' ' else s[0]
  }

  /** One step of the collapse: the head of the first run, then the collapse of what follows the run. */
  lemma CollapseHead(s: string)
    requires s != []
    ensures CollapseSpaces(s) == [CollapsedHead(s)] + CollapseSpaces(s[if IsSpace(s[0]) then SpaceRun(s) else 1..])
  {
  }

  lemma CollapseWord(s: string)
    requires s != [] && !IsSpace(s[0])
    ensures CollapseSpaces(s) == [s[0]] + CollapseSpaces(s[1..])
  {
  }

  /** A whitespace run of two or more between two words becomes one space. */
  lemma CollapseBetween(a: string, w: string, b: string)
    requires a != [] && b != [] && !IsSpace(a[|a| - 1]) && !IsSpace(b[0])
    requires |w| >= 2 && AllSpace(w)
    ensures CollapseSpaces(a + w + b) == CollapseSpaces(a + " " + b)
  {
    CollapseRun(w);
    CollapseRun(" ");
    Unsnoc(w, b);
    Unsnoc(" ", b);
    CollapseSplit(w, b[0], b[1..]);
    CollapseSplit(" ", b[0], b[1..]);
    Reassociate(a, w, b);
    Reassociate(a, " ", b);
    CollapseSplit(a[..|a| - 1], a[|a| - 1], w + b);
    CollapseSplit(a[..|a| - 1], a[|a| - 1], " " + b);
  }

  lemma Unsnoc<T>(x: seq<T>, y: seq<T>)
    requires y != []
    ensures x + y == x + [y[0]] + y[1..]
  {
  }

  lemma Reassociate<T>(a: seq<T>, x: seq<T>, y: seq<T>)
    requires a != []
    ensures a + x + y == a[..|a| - 1] + [a[|a| - 1]] + (x + y)
  {
    assert a == a[..|a| - 1] + [a[|a| - 1]];
  }

  predicate IsSuffixToken(t: string) {
    t == "GE" || t == "CE"
  }

  /**
   * `replace(/\s+(?<!A|RA|OR|FOR)(?:GE|CE)$/, "")`. The lookbehind stands
   * after `\s+`, where the character before is always whitespace, so it never
   * rejects a match: a final `GE` or `CE` preceded by whitespace is removed
   * together with that whole run of whitespace, whatever comes before it.
   */
  function StripSuffixToken(s: string): (r: string)
    ensures r <= s
    ensures r == s <==> !(|s| >= 3 && IsSuffixToken(s[|s| - 2..]) && IsSpace(s[|s| - 3]))
    ensures |s| >= 3 && IsSuffixToken(s[|s| - 2..]) && IsSpace(s[|s| - 3]) ==>
              |r| <= |s| - 3 && AllSpace(s[|r|..|s| - 2]) && (r == [] || !IsSpace(r[|r| - 1]))
  {
    if |s| >= 3 && IsSuffixToken(s[|s| - 2..]) && IsSpace(s[|s| - 3]) then
      var r := TrimEnd(s[..|s| - 2]);
      TrimEndTail(s, |s| - 2, r);
      r
    else s
  }

  /** `replace(/\s+[一-鿿぀-ゟ゠-ヿ]$/, "")`. */
  function StripTrailingCjk(s: string): (r: string)
    ensures r <= s
    ensures r == s <==> !(|s| >= 2 && IsCjk(s[|s| - 1]) && IsSpace(s[|s| - 2]))
    ensures |s| >= 2 && IsCjk(s[|s| - 1]) && IsSpace(s[|s| - 2]) ==>
              |r| <= |s| - 2 && AllSpace(s[|r|..|s| - 1]) && (r == [] || !IsSpace(r[|r| - 1]))
  {
    if |s| >= 2 && IsCjk(s[|s| - 1]) && IsSpace(s[|s| - 2]) then
      var r := TrimEnd(s[..|s| - 1]);
      TrimEndTail(s, |s| - 1, r);
      r
    else s
  }

  /**
   * Trimming the end of `s[..m]`, whose last character is whitespace, removes
   * at least that character and only whitespace.
   */
  lemma TrimEndTail(s: string, m: nat, r: string)
    requires 0 < m <= |s| && IsSpace(s[m - 1])
    requires r <= s[..m] && (r == [] || !IsSpace(r[|r| - 1]))
    requires forall k :: |r| <= k < m ==> IsSpace(s[..m][k])
    ensures |r| < m && AllSpace(s[|r|..m]) && r <= s
  {
    forall k | 0 <= k < m - |r| ensures IsSpace(s[|r|..m][k]) {
      assert s[|r|..m][k] == s[..m][|r| + k];
    }
  }

  /**
   * `cleanCardName`: empty for a missing or empty name; otherwise trimmed,
   * whitespace runs collapsed, then a standalone trailing GE/CE and a
   * standalone trailing CJK character removed, in that order.
   */
  function CleanCardName(cardName: Option<string>): (r: string)
    ensures cardName == None || cardName == Some("") ==> r == ""
    ensures NoEdgeSpace(r) && NoDoubleSpace(r)
    ensures cardName.Some? ==> r <= CollapseSpaces(Trim(cardName.value))
  {
    if cardName.None? || cardName.value == "" then ""
    else
      var c := CollapseSpaces(Trim(cardName.value));
      CollapseKeepsEdges(Trim(cardName.value));
      StripsKeepCanonical(c);
      StripTrailingCjk(StripSuffixToken(c))
  }

  /** Collapsing the runs of a trimmed string leaves it trimmed. */
  lemma CollapseKeepsEdges(t: string)
    requires NoEdgeSpace(t)
    ensures NoEdgeSpace(CollapseSpaces(t))
  {
  }

  /** The two suffix rules shorten a trimmed, collapsed name to a prefix that is again trimmed and collapsed. */
  lemma StripsKeepCanonical(c: string)
    requires NoEdgeSpace(c) && NoDoubleSpace(c)
    ensures StripTrailingCjk(StripSuffixToken(c)) <= c
    ensures NoEdgeSpace(StripTrailingCjk(StripSuffixToken(c)))
    ensures NoDoubleSpace(StripTrailingCjk(StripSuffixToken(c)))
  {
    var m := StripSuffixToken(c);
    var r := StripTrailingCjk(m);
    assert r == m[..|r|] && m == c[..|m|];
    assert r == c[..|r|];
    PrefixNoDoubleSpace(r, c);
    if r != [] {
      assert r[0] == c[0];
    }
  }

  // ---------------------------------------------------------- lemmas

  /** A name already trimmed and collapsed passes the first two steps unchanged. */
  lemma CanonicalUnchanged(s: string)
    requires NoEdgeSpace(s) && NoDoubleSpace(s)
    ensures CollapseSpaces(Trim(s)) == s
  {
    CollapseIdentity(s);
  }

  /** On a trimmed, collapsed, non-empty name only the two suffix rules act. */
  lemma CleanCanonical(s: string)
    requires s != [] && NoEdgeSpace(s) && NoDoubleSpace(s)
    ensures CleanCardName(Some(s)) == StripTrailingCjk(StripSuffixToken(s))
  {
    CanonicalUnchanged(s);
    CleanSteps(s);
  }

  /** A non-empty name goes through trim, collapse and the two suffix rules. */
  lemma CleanSteps(x: string)
    requires x != []
    ensures CleanCardName(Some(x)) == StripTrailingCjk(StripSuffixToken(CollapseSpaces(Trim(x))))
  {
  }

  /** Whitespace around a name does not change what it normalises to. */
  lemma CleanIgnoresEdges(u: string, s: string, v: string)
    requires AllSpace(u) && AllSpace(v) && s != [] && NoEdgeSpace(s)
    ensures CleanCardName(Some(u + s + v)) == CleanCardName(Some(s))
  {
    TrimAround(u, s, v);
    assert u + s + v != [];
    SameTrimSameName(u + s + v, s);
  }

  /** The normal form of a non-empty name depends only on its trimmed form. */
  lemma SameTrimSameName(x: string, y: string)
    requires x != [] && y != [] && Trim(x) == Trim(y)
    ensures CleanCardName(Some(x)) == CleanCardName(Some(y))
  {
  }

  /** A run of two or more whitespace characters inside a name normalises like a single space. */
  lemma CleanCollapsesRun(a: string, w: string, b: string)
    requires a != [] && b != [] && NoEdgeSpace(a) && NoEdgeSpace(b)
    requires |w| >= 2 && AllSpace(w)
    ensures CleanCardName(Some(a + w + b)) == CleanCardName(Some(a + " " + b))
  {
    var x, y := a + w + b, a + " " + b;
    EdgesOfJoin(a, w, b);
    EdgesOfJoin(a, " ", b);
    assert Trim(x) == x && Trim(y) == y;
    CollapseBetween(a, w, b);
    SameCollapseSameName(x, y);
  }

  /** The normal form of a non-empty name depends only on its trimmed, collapsed form. */
  lemma SameCollapseSameName(x: string, y: string)
    requires x != [] && y != [] && CollapseSpaces(Trim(x)) == CollapseSpaces(Trim(y))
    ensures CleanCardName(Some(x)) == CleanCardName(Some(y))
  {
  }

  lemma EdgesOfJoin(a: string, w: string, b: string)
    requires a != [] && b != [] && NoEdgeSpace(a) && NoEdgeSpace(b)
    ensures a + w + b != [] && NoEdgeSpace(a + w + b)
  {
    assert (a + w + b)[0] == a[0];
    assert (a + w + b)[|a + w + b| - 1] == b[|b| - 1];
  }

  /**
   * A trimmed, collapsed name that does not end in whitespace and GE/CE, nor
   * in whitespace and one CJK character, is its own normal form.
   */
  lemma PlainNameKept(s: string)
    requires s != [] && NoEdgeSpace(s) && NoDoubleSpace(s)
    requires !(|s| >= 3 && IsSuffixToken(s[|s| - 2..]) && IsSpace(s[|s| - 3]))
    requires !(|s| >= 2 && IsCjk(s[|s| - 1]) && IsSpace(s[|s| - 2]))
    ensures CleanCardName(Some(s)) == s
  {
    CleanCanonical(s);
    StripsKeepPlain(s);
  }

  lemma StripsKeepPlain(s: string)
    requires !(|s| >= 3 && IsSuffixToken(s[|s| - 2..]) && IsSpace(s[|s| - 3]))
    requires !(|s| >= 2 && IsCjk(s[|s| - 1]) && IsSpace(s[|s| - 2]))
    ensures StripTrailingCjk(StripSuffixToken(s)) == s
  {
  }

  /** Appending one whitespace character and a word without whitespace keeps a name canonical. */
  lemma AppendWordCanonical(p: string, w: char, t: string)
    requires p != [] && NoEdgeSpace(p) && NoDoubleSpace(p)
    requires IsSpace(w) && t != [] && forall i :: 0 <= i < |t| ==> !IsSpace(t[i])
    ensures NoEdgeSpace(p + [w] + t) && NoDoubleSpace(p + [w] + t)
  {
    var s := p + [w] + t;
    forall i, j | 0 <= i < j < |s| && j == i + 1 ensures !IsSpace(s[i]) || !IsSpace(s[j]) {
      if j < |p| {
        assert s[i] == p[i] && s[j] == p[j];
      } else if j > |p| {
        assert s[j] == t[j - |p| - 1];
      }
    }
    assert s[|s| - 1] == t[|t| - 1];
  }

  /** Removing a whitespace character and what follows it from `p + [w]` gives back `p`. */
  lemma TrimEndAppendSpace(p: string, w: char)
    requires NoEdgeSpace(p) && IsSpace(w)
    ensures TrimEnd(p + [w]) == p
  {
    assert (p + [w])[..|p|] == p;
  }

  /**
   * The lookbehind never fires: a whitespace-separated trailing `GE` or `CE`
   * is always removed, also after a word ending in A, RA, OR or FOR.
   */
  lemma StandaloneSuffixRemoved(p: string, w: char, t: string)
    requires p != [] && NoEdgeSpace(p) && NoDoubleSpace(p)
    requires IsSpace(w) && IsSuffixToken(t)
    ensures CleanCardName(Some(p + [w] + t)) == StripTrailingCjk(p)
  {
    AppendWordCanonical(p, w, t);
    CleanCanonical(p + [w] + t);
    SuffixTokenStripped(p, w, t);
  }

  /** The GE/CE rule removes a whitespace character and the token after a trimmed name. */
  lemma SuffixTokenStripped(p: string, w: char, t: string)
    requires NoEdgeSpace(p) && IsSpace(w) && IsSuffixToken(t)
    ensures StripSuffixToken(p + [w] + t) == p
  {
    var s := p + [w] + t;
    assert s[..|s| - 2] == p + [w];
    assert s[|s| - 2..] == t;
    TrimEndAppendSpace(p, w);
  }

  /** A word that merely ends in GE or CE (`FORCE`, `RAGE`, `XYZGE`) is never shortened. */
  lemma GluedSuffixKept(p: string, t: string)
    requires p != [] && NoEdgeSpace(p) && NoDoubleSpace(p)
    requires IsSuffixToken(t)
    ensures CleanCardName(Some(p + t)) == p + t
  {
    SuffixTokenNoSpace(t);
    var s := p + t;
    GluedCanonical(p, t);
    CleanCanonical(s);
    assert s[|s| - 3] == p[|p| - 1] && s[|s| - 2] == t[0];
    SuffixTokenKept(s);
    TrailingCjkKept(s);
  }

  lemma SuffixTokenNoSpace(t: string)
    requires IsSuffixToken(t)
    ensures |t| == 2 && !IsSpace(t[0]) && !IsSpace(t[1])
  {
  }

  /** A name followed directly by a two-letter word without whitespace stays canonical. */
  lemma GluedCanonical(p: string, t: string)
    requires p != [] && NoEdgeSpace(p) && NoDoubleSpace(p)
    requires |t| == 2 && !IsSpace(t[0]) && !IsSpace(t[1])
    ensures NoEdgeSpace(p + t) && NoDoubleSpace(p + t)
  {
    var s := p + t;
    forall i, j | 0 <= i < j < |s| && j == i + 1 ensures !IsSpace(s[i]) || !IsSpace(s[j]) {
      if j < |p| {
        assert s[i] == p[i] && s[j] == p[j];
      } else {
        assert s[j] == t[j - |p|];
      }
    }
    assert s[|s| - 1] == t[1];
  }

  lemma SuffixTokenKept(s: string)
    requires |s| >= 3 && !IsSpace(s[|s| - 3])
    ensures StripSuffixToken(s) == s
  {
  }

  lemma TrailingCjkKept(s: string)
    requires |s| >= 2 && !IsSpace(s[|s| - 2])
    ensures StripTrailingCjk(s) == s
  {
  }

  /** A trailing whitespace-separated Han, Hiragana or Katakana character is removed. */
  lemma TrailingCjkRemoved(p: string, w: char, c: char)
    requires p != [] && NoEdgeSpace(p) && NoDoubleSpace(p)
    requires IsSpace(w) && IsCjk(c)
    ensures CleanCardName(Some(p + [w, c])) == p
  {
    AppendWordCanonical(p, w, [c]);
    assert p + [w] + [c] == p + [w, c];
    CleanCanonical(p + [w, c]);
    CjkStripped(p, w, c);
  }

  /** After a trimmed name, whitespace and one CJK character pass the GE/CE rule and fall to the CJK rule. */
  lemma CjkStripped(p: string, w: char, c: char)
    requires NoEdgeSpace(p) && IsSpace(w) && IsCjk(c)
    ensures StripSuffixToken(p + [w, c]) == p + [w, c]
    ensures StripTrailingCjk(p + [w, c]) == p
  {
    var s := p + [w, c];
    assert s[|s| - 2..] == [w, c];
    assert s[..|s| - 1] == p + [w];
    TrimEndAppendSpace(p, w);
  }

  /** A trailing CJK character is removed after the GE/CE rule has run, so a GE before it stays. */
  lemma CjkAfterSuffix(p: string, w: char, t: string, c: char)
    requires p != [] && NoEdgeSpace(p) && NoDoubleSpace(p)
    requires IsSpace(w) && IsSuffixToken(t) && IsCjk(c)
    ensures CleanCardName(Some(p + [w] + t + [w, c])) == p + [w] + t
  {
    AppendWordCanonical(p, w, t);
    TrailingCjkRemoved(p + [w] + t, w, c);
  }

  /** One pass removes only the last of two standalone tokens (`FOO GE GE` becomes `FOO GE`). */
  lemma OnePassRemovesOneToken(p: string, w: char, t1: string, t2: string)
    requires p != [] && NoEdgeSpace(p) && NoDoubleSpace(p)
    requires IsSpace(w) && IsSuffixToken(t1) && IsSuffixToken(t2)
    ensures CleanCardName(Some(p + [w] + t1 + [w] + t2)) == p + [w] + t1
  {
    var q := p + [w] + t1;
    AppendWordCanonical(p, w, t1);
    StandaloneSuffixRemoved(q, w, t2);
    assert q[|q| - 1] == t1[1];
    assert StripTrailingCjk(q) == q;
  }

  /**
   * `cleanCardName` is not idempotent: applied to its own output it removes
   * the next standalone token as well.
   */
  lemma NotIdempotent(p: string, w: char, t1: string, t2: string)
    requires p != [] && NoEdgeSpace(p) && NoDoubleSpace(p)
    requires IsSpace(w) && IsSuffixToken(t1) && IsSuffixToken(t2)
    ensures var once := CleanCardName(Some(p + [w] + t1 + [w] + t2));
            CleanCardName(Some(once)) != once
  {
    OnePassRemovesOneToken(p, w, t1, t2);
    StandaloneSuffixRemoved(p, w, t1);
  }
}
