/**
 * The JavaScript string operations the pages use: `toLowerCase` (ASCII letters only),
 * `trim` (the ECMAScript WhiteSpace and LineTerminator code points), `includes`,
 * `split` on single separator characters, and the split / trim / `filter(Boolean)`
 * pipeline that turns a skills text into a list of items.
 */
module JsStrings {
  import opened Seqs

  // ---------------------------------------------------------------- case folding

  predicate IsAsciiUpper(c: char) {
    'A' <= c <= 'Z'
  }

  /** `toLowerCase` on one character, restricted to the ASCII letters. */
  function LowerChar(c: char): (r: char)
    ensures !IsAsciiUpper(r)
    ensures IsAsciiUpper(c) ==> r as int - c as int == 32
    ensures !IsAsciiUpper(c) ==> r == c
  {
    if IsAsciiUpper(c) then (c as int + 32) as char else c
  }

  function ToLowerCase(s: string): (r: string)
    ensures |r| == |s|
    ensures forall i :: 0 <= i < |s| ==> r[i] == LowerChar(s[i])
  {
    if s == [] then [] else [LowerChar(s[0])] + ToLowerCase(s[1..])
  }

  // ---------------------------------------------------------------- includes

  /** `s` holds `p` at position `i`. */
  predicate OccursAt(s: string, p: string, i: int) {
    0 <= i && i + |p| <= |s| && s[i..i + |p|] == p
  }

  /** `String.prototype.includes`: a scan for `p` from each position of `s` in turn. */
  predicate Includes(s: string, p: string)
    decreases |s|
  {
    (|p| <= |s| && s[..|p|] == p) || (s != [] && Includes(s[1..], p))
  }

  /** An occurrence at `i` is found by the scan. */
  lemma {:induction false} OccursIncludes(s: string, p: string, i: nat)
    requires OccursAt(s, p, i)
    ensures Includes(s, p)
    decreases i
  {
    if i > 0 {
      assert s[1..][i - 1..i - 1 + |p|] == s[i..i + |p|];
      OccursIncludes(s[1..], p, i - 1);
    }
  }

  /** What the scan finds is an occurrence. */
  lemma {:induction false} IncludesOccurs(s: string, p: string) returns (i: nat)
    requires Includes(s, p)
    ensures OccursAt(s, p, i)
    decreases |s|
  {
    if |p| <= |s| && s[..|p|] == p {
      i := 0;
    } else {
      var j := IncludesOccurs(s[1..], p);
      i := j + 1;
      assert s[i..i + |p|] == s[1..][j..j + |p|];
    }
  }

  /** The scan finds `p` exactly when `p` occurs somewhere in `s`. */
  lemma IncludesIffOccurs(s: string, p: string)
    ensures Includes(s, p) <==> exists i :: OccursAt(s, p, i)
  {
    if Includes(s, p) {
      var i := IncludesOccurs(s, p);
    }
    if exists i :: OccursAt(s, p, i) {
      var i :| OccursAt(s, p, i);
      OccursIncludes(s, p, i);
    }
  }

  /** Every string includes the empty string. */
  lemma IncludesEmpty(s: string)
    ensures Includes(s, "")
  {
    assert s[..0] == "";
  }

  /** The empty string includes only the empty string. */
  lemma EmptyIncludes(p: string)
    ensures Includes("", p) <==> p == ""
  {
  }

  /** A string includes each of its prefixes. */
  lemma IncludesPrefix(s: string, p: string)
    requires |p| <= |s| && s[..|p|] == p
    ensures Includes(s, p)
  {
  }

  // ---------------------------------------------------------------- trim

  /** The code points `String.prototype.trim` removes: ECMAScript WhiteSpace and LineTerminator. */
  predicate IsJsWhiteSpace(c: char) {
    || c == '\t' || c == '\n' || c == '\U{000B}' || c == '\U{000C}' || c == '\r' || c == ' '
    || c == '\U{00A0}' || c == '\U{1680}' || ('\U{2000}' <= c <= '\U{200A}')
    || c == '\U{2028}' || c == '\U{2029}' || c == '\U{202F}' || c == '\U{205F}'
    || c == '\U{3000}' || c == '\U{FEFF}'
  }

  predicate AllWhiteSpace(s: string) {
    forall i :: 0 <= i < |s| ==> IsJsWhiteSpace(s[i])
  }

  /** Neither end of `s` is white space. */
  predicate IsTrimmed(s: string) {
    s == [] || (!IsJsWhiteSpace(s[0]) && !IsJsWhiteSpace(s[|s| - 1]))
  }

  /** Drops the leading white space: the result is the suffix that starts at the first other character. */
  function TrimStart(s: string): (r: string)
    ensures |r| <= |s| && r == s[|s| - |r|..]
    ensures forall i :: 0 <= i < |s| - |r| ==> IsJsWhiteSpace(s[i])
    ensures r == [] || !IsJsWhiteSpace(r[0])
  {
    if s != [] && IsJsWhiteSpace(s[0]) then
      var r := TrimStart(s[1..]);
      assert forall i :: 1 <= i < |s| - |r| ==> s[i] == s[1..][i - 1];
      r
    else s
  }

  /** Drops the trailing white space: the result is the prefix that ends at the last other character. */
  function TrimEnd(s: string): (r: string)
    ensures |r| <= |s| && r == s[..|r|]
    ensures forall i :: |r| <= i < |s| ==> IsJsWhiteSpace(s[i])
    ensures r == [] || !IsJsWhiteSpace(r[|r| - 1])
  {
    if s != [] && IsJsWhiteSpace(s[|s| - 1]) then
      var r := TrimEnd(s[..|s| - 1]);
      assert forall i :: |r| <= i < |s| - 1 ==> s[i] == s[..|s| - 1][i];
      r
    else s
  }

  /** `String.prototype.trim`. */
  function Trim(s: string): (r: string)
    ensures IsTrimmed(r)
  {
    TrimEnd(TrimStart(s))
  }

  /** What `TrimStart` drops is white space. */
  lemma TrimStartDropsWhiteSpace(s: string)
    ensures AllWhiteSpace(s[..|s| - |TrimStart(s)|])
  {
    var head := s[..|s| - |TrimStart(s)|];
    forall i | 0 <= i < |head| ensures IsJsWhiteSpace(head[i]) {
      assert head[i] == s[i];
    }
  }

  /** What `TrimEnd` drops is white space. */
  lemma TrimEndDropsWhiteSpace(s: string)
    ensures AllWhiteSpace(s[|TrimEnd(s)|..])
  {
    var tail := s[|TrimEnd(s)|..];
    forall i | 0 <= i < |tail| ensures IsJsWhiteSpace(tail[i]) {
      assert tail[i] == s[|TrimEnd(s)| + i];
    }
  }

  /**
   * What `trim` keeps is the slice `s[k..k + |r|]`; everything around it is white space,
   * so a character of the result is a character of `s`.
   */
  lemma TrimIsSlice(s: string) returns (k: nat)
    ensures k + |Trim(s)| <= |s| && Trim(s) == s[k..k + |Trim(s)|]
    ensures AllWhiteSpace(s[..k]) && AllWhiteSpace(s[k + |Trim(s)|..])
  {
    var t := TrimStart(s);
    k := |s| - |t|;
    var r := TrimEnd(t);
    TrimStartDropsWhiteSpace(s);
    TrimEndDropsWhiteSpace(t);
    assert t == s[k..] && r == t[..|r|];
    assert s[k..k + |r|] == r;
    assert s[k + |r|..] == t[|r|..];
  }

  /** A string with no white space at either end is its own trim. */
  lemma TrimOfTrimmed(s: string)
    requires IsTrimmed(s)
    ensures Trim(s) == s
  {
  }

  /** `trim` yields the empty string exactly for strings made only of white space. */
  lemma TrimEmptyIff(s: string)
    ensures Trim(s) == "" <==> AllWhiteSpace(s)
  {
    var k := TrimIsSlice(s);
    if Trim(s) == "" {
      assert s == s[..k] + s[k..];
      forall i | 0 <= i < |s| ensures IsJsWhiteSpace(s[i]) {
        if i < k { assert s[..k][i] == s[i]; } else { assert s[k..][i - k] == s[i]; }
      }
    } else {
      assert s[k] == Trim(s)[0];
    }
  }

  // ---------------------------------------------------------------- split and join

  /** No character of `t` is one of `seps`. */
  predicate Avoids(t: string, seps: set<char>) {
    forall i :: 0 <= i < |t| ==> t[i] !in seps
  }

  /**
   * `String.prototype.split` with a separator that matches one character of `seps`
   * (the string "," or the class /[,\n]/): the pieces between separators, so the
   * empty string gives one empty piece and a trailing separator a trailing empty piece.
   */
  function Split(s: string, seps: set<char>): (r: seq<string>)
    ensures |r| >= 1
    ensures forall i :: 0 <= i < |r| ==> Avoids(r[i], seps)
  {
    if s == [] then [""]
    else
      var rest := Split(s[1..], seps);
      if s[0] in seps then [""] + rest
      else [[s[0]] + rest[0]] + rest[1..]
  }

  /** `Array.prototype.join` with a one-character separator. */
  function Join(xs: seq<string>, c: char): string {
    if xs == [] then ""
    else if |xs| == 1 then xs[0]
    else xs[0] + [c] + Join(xs[1..], c)
  }

  /** Splitting on one character and joining with it gives back the original text. */
  lemma {:induction false} JoinSplit(s: string, c: char)
    ensures Join(Split(s, {c}), c) == s
  {
    if s != [] {
      JoinSplit(s[1..], c);
      var rest := Split(s[1..], {c});
      if s[0] == c {
        assert Split(s, {c})[1..] == rest;
        assert s == [c] + s[1..];
      } else {
        var r := Split(s, {c});
        assert r[0] == [s[0]] + rest[0] && r[1..] == rest[1..];
        assert s == [s[0]] + s[1..];
      }
    }
  }

  /** A separator-free prefix joins the first piece of what follows it. */
  lemma {:induction false} SplitAfterPlain(t: string, tail: string, seps: set<char>)
    requires Avoids(t, seps)
    ensures Split(t + tail, seps) == [t + Split(tail, seps)[0]] + Split(tail, seps)[1..]
  {
    if t != [] {
      var u := t + tail;
      assert u[0] == t[0] && t[0] !in seps;
      assert u[1..] == t[1..] + tail;
      SplitAfterPlain(t[1..], tail, seps);
      var rest := Split(u[1..], seps);
      assert rest[0] == t[1..] + Split(tail, seps)[0];
      assert [t[0]] + rest[0] == t + Split(tail, seps)[0];
    } else {
      var r := Split(tail, seps);
      assert t + tail == tail && t + r[0] == r[0];
      assert [r[0]] + r[1..] == r;
    }
  }

  /** Joining separator-free pieces with a separator and splitting again gives the pieces back. */
  lemma {:induction false} SplitJoin(xs: seq<string>, c: char, seps: set<char>)
    requires |xs| >= 1 && c in seps
    requires forall i :: 0 <= i < |xs| ==> Avoids(xs[i], seps)
    ensures Split(Join(xs, c), seps) == xs
  {
    if |xs| == 1 {
      SplitAfterPlain(xs[0], "", seps);
      assert xs[0] + "" == xs[0];
    } else {
      var tail := [c] + Join(xs[1..], c);
      assert Join(xs, c) == xs[0] + tail;
      SplitAfterPlain(xs[0], tail, seps);
      SplitJoin(xs[1..], c, seps);
      assert tail[0] == c && tail[1..] == Join(xs[1..], c);
      assert Split(tail, seps) == [""] + xs[1..];
      assert xs[0] + "" == xs[0];
      assert [xs[0]] + xs[1..] == xs;
    }
  }

  // ---------------------------------------------------------------- skill items

  /** An item of a parsed skills list: non-empty, trimmed, and free of separators. */
  predicate IsCleanItem(t: string, seps: set<char>) {
    t != "" && IsTrimmed(t) && Avoids(t, seps)
  }

  predicate IsNonEmpty(t: string) {
    t != ""
  }

  /** `filter(Boolean)` on strings: only the empty string is falsy. */
  function DropEmpty(xs: seq<string>): (r: seq<string>)
    ensures forall i :: 0 <= i < |r| ==> r[i] != ""
  {
    Filter(IsNonEmpty, xs)
  }

  /** `.map(s => s.trim())`. */
  function TrimAll(xs: seq<string>): (r: seq<string>)
    ensures |r| == |xs| && forall i :: 0 <= i < |xs| ==> r[i] == Trim(xs[i])
  {
    Map(Trim, xs)
  }

  /** Trimming a separator-free string leaves it separator-free. */
  lemma TrimAvoids(t: string, seps: set<char>)
    requires Avoids(t, seps)
    ensures Avoids(Trim(t), seps)
  {
    var k := TrimIsSlice(t);
    forall j | 0 <= j < |Trim(t)| ensures Trim(t)[j] !in seps {
      assert Trim(t)[j] == t[k + j];
    }
  }

  /** Trimming separator-free pieces and dropping the empty ones leaves only clean items. */
  lemma CleanPieces(pieces: seq<string>, seps: set<char>)
    requires forall i :: 0 <= i < |pieces| ==> Avoids(pieces[i], seps)
    ensures forall i :: 0 <= i < |DropEmpty(TrimAll(pieces))| ==> IsCleanItem(DropEmpty(TrimAll(pieces))[i], seps)
  {
    var trimmed := TrimAll(pieces);
    forall i | 0 <= i < |trimmed| ensures Avoids(trimmed[i], seps) {
      TrimAvoids(pieces[i], seps);
    }
    var r := DropEmpty(trimmed);
    forall i | 0 <= i < |r| ensures IsCleanItem(r[i], seps) {
      FilterMembers(IsNonEmpty, trimmed, r[i]);
    }
  }

  /** `split(seps).map(s => s.trim()).filter(Boolean)`. */
  function SplitItems(s: string, seps: set<char>): (r: seq<string>)
    ensures forall i :: 0 <= i < |r| ==> IsCleanItem(r[i], seps)
  {
    CleanPieces(Split(s, seps), seps);
    DropEmpty(TrimAll(Split(s, seps)))
  }

  /**
   * Items that are already clean come back unchanged when joined with a separator and
   * parsed again: the parser is a normaliser whose fixed points are the clean lists.
   */
  lemma SplitItemsOfJoin(xs: seq<string>, c: char, seps: set<char>)
    requires c in seps
    requires forall i :: 0 <= i < |xs| ==> IsCleanItem(xs[i], seps)
    ensures SplitItems(Join(xs, c), seps) == xs
  {
    if xs == [] {
      assert Split("", seps) == [""];
      assert TrimAll([""]) == [""];
    } else {
      SplitJoin(xs, c, seps);
      forall i | 0 <= i < |xs| ensures Trim(xs[i]) == xs[i] {
        TrimOfTrimmed(xs[i]);
      }
      assert TrimAll(xs) == xs;
      FilterKeepsAll(IsNonEmpty, xs);
    }
  }

  /** Parsing the joined items of a parse gives the same items again. */
  lemma SplitItemsIdempotent(s: string, c: char, seps: set<char>)
    requires c in seps
    ensures SplitItems(Join(SplitItems(s, seps), c), seps) == SplitItems(s, seps)
  {
    SplitItemsOfJoin(SplitItems(s, seps), c, seps);
  }

  /** A text with no characters other than separators and white space has no items. */
  lemma SplitItemsOfBlank(s: string, seps: set<char>)
    requires forall i :: 0 <= i < |s| ==> s[i] in seps || IsJsWhiteSpace(s[i])
    ensures SplitItems(s, seps) == []
  {
    var pieces := Split(s, seps);
    BlankPieces(s, seps);
    forall i | 0 <= i < |pieces| ensures Trim(pieces[i]) == "" {
      TrimEmptyIff(pieces[i]);
    }
    FilterKeepsNone(IsNonEmpty, TrimAll(pieces));
  }

  /** The pieces of a text made of separators and white space are all white space. */
  lemma {:induction false} BlankPieces(s: string, seps: set<char>)
    requires forall i :: 0 <= i < |s| ==> s[i] in seps || IsJsWhiteSpace(s[i])
    ensures forall i :: 0 <= i < |Split(s, seps)| ==> AllWhiteSpace(Split(s, seps)[i])
  {
    if s != [] {
      BlankPieces(s[1..], seps);
    }
  }
}
