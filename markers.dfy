/**
 * The two marker shapes that a cell's text may hold, and the leftmost-match
 * scanners that find them.
 *
 * The regular expressions of the repository live in a `Constants` class that
 * is not part of this model, so the grammar is fixed here as an assumption:
 *   plain marker   `${` word `}`
 *   dotted marker  `${` word `.` word `}`
 * where a word is one or more of Java's `\w` characters. The dotted pattern is
 * taken to capture `{` as group 1, `root.` (with its dot) as group 2 and
 * `attr}` as group 3, so that the rewrite `#$1$3` yields `#{attr}`.
 */
module Markers {
  import opened Options


  /** Java's `\w`: an ASCII letter, a digit or an underscore. */
  predicate IsWordChar(c: char) {
    ('a' <= c <= 'z') || ('A' <= c <= 'Z') || ('0' <= c <= '9') || c == '_'
  }

  /** One or more word characters. */
  predicate IsWord(w: string) {
    |w| > 0 && forall i :: 0 <= i < |w| ==> IsWordChar(w[i])
  }

  function PlainMarker(key: string): string {
    "${" + key + "}"
  }

  function DottedMarker(root: string, attr: string): string {
    "${" + root + "." + attr + "}"
  }

  // ---------------------------------------------------------------------
  // The grammar, as a reference definition

  /** `s` holds the plain marker of `key` at index `i`. */
  predicate IsPlainMarkerAt(s: string, i: nat, key: string) {
    IsWord(key) && i + |key| + 3 <= |s| && s[i..i + |key| + 3] == PlainMarker(key)
  }

  /** `s` holds the dotted marker of `root` and `attr` at index `i`. */
  predicate IsDottedMarkerAt(s: string, i: nat, root: string, attr: string) {
    IsWord(root) && IsWord(attr) && i + |root| + |attr| + 4 <= |s|
    && s[i..i + |root| + |attr| + 4] == DottedMarker(root, attr)
  }

  ghost predicate NoPlainMarker(s: string) {
    forall i: nat, key: string :: !IsPlainMarkerAt(s, i, key)
  }

  ghost predicate NoDottedMarker(s: string) {
    forall i: nat, root: string, attr: string :: !IsDottedMarkerAt(s, i, root, attr)
  }

  /** The plain marker of `key` at `i` is the leftmost plain marker of `s`. */
  ghost predicate IsFirstPlainMarker(s: string, i: nat, key: string) {
    IsPlainMarkerAt(s, i, key) && forall j: nat, k: string :: j < i ==> !IsPlainMarkerAt(s, j, k)
  }

  /** The dotted marker of `root.attr` at `i` is the leftmost dotted marker of `s`. */
  ghost predicate IsFirstDottedMarker(s: string, i: nat, root: string, attr: string) {
    IsDottedMarkerAt(s, i, root, attr)
    && forall j: nat, r: string, a: string :: j < i ==> !IsDottedMarkerAt(s, j, r, a)
  }

  // ---------------------------------------------------------------------
  // Matches, as `Matcher.find` reports them

  /** A plain match: the span `[start, end)` and group 1, the key. */
  datatype PlainMatch = PlainMatch(start: nat, end: nat, key: string)

  /** A dotted match: the span `[start, end)`, group 2 (`root.`) and the attribute. */
  datatype DottedMatch = DottedMatch(start: nat, end: nat, head: string, attr: string)

  /** Removes the trailing dot of group 2 (the `substring(0, length - 1)` of the source). */
  function RootName(head: string): (name: string)
    requires |head| > 0
    ensures |name| == |head| - 1 && head == name + [head[|head| - 1]]
  {
    head[..|head| - 1]
  }

  /** The end of the run of word characters that starts at `j`. */
  function WordEnd(s: string, j: nat): (e: nat)
    requires j <= |s|
    ensures j <= e <= |s|
    ensures forall t :: j <= t < e ==> IsWordChar(s[t])
    ensures e == |s| || !IsWordChar(s[e])
    decreases |s| - j
  {
    if j < |s| && IsWordChar(s[j]) then WordEnd(s, j + 1) else j
  }

  /** A word run from `j` that stops at the non-word character at `p` ends exactly there. */
  lemma WordEndAt(s: string, j: nat, p: nat)
    requires j <= p < |s|
    requires forall t :: j <= t < p ==> IsWordChar(s[t])
    requires !IsWordChar(s[p])
    ensures WordEnd(s, j) == p
  {
  }

  /** The word `w`, written at `j` and followed by a non-word character, is the whole run. */
  lemma WordRunEnd(s: string, j: nat, w: string)
    requires IsWord(w) && j + |w| < |s| && s[j..j + |w|] == w && !IsWordChar(s[j + |w|])
    ensures WordEnd(s, j) == j + |w|
  {
    forall t | j <= t < j + |w|
      ensures IsWordChar(s[t])
    {
      assert s[t] == s[j..j + |w|][t - j] == w[t - j];
    }
    WordEndAt(s, j, j + |w|);
  }

  /** A slice of a slice is a slice of the original. */
  lemma SliceOfSlice(s: string, i: nat, j: nat, a: nat, b: nat)
    requires i <= j <= |s| && a <= b <= j - i
    ensures s[i..j][a..b] == s[i + a..i + b]
  {
    forall k | 0 <= k < b - a
      ensures s[i..j][a..b][k] == s[i + a..i + b][k]
    {
      assert s[i..j][a..b][k] == s[i..j][a + k] == s[i + a + k];
    }
  }

  lemma PlainMarkerChars(key: string)
    ensures var m := PlainMarker(key);
            |m| == |key| + 3 && m[0] == '$' && m[1] == '{' && m[|key| + 2] == '}'
            && m[2..|key| + 2] == key
  {
    var m := PlainMarker(key);
    assert m == "${" + key + "}";
    assert m[2..|key| + 2] == key;
  }

  lemma DottedMarkerChars(root: string, attr: string)
    ensures var m := DottedMarker(root, attr);
            |m| == |root| + |attr| + 4 && m[0] == '$' && m[1] == '{'
            && m[|root| + 2] == '.' && m[|root| + |attr| + 3] == '}'
            && m[2..|root| + 2] == root && m[|root| + 3..|root| + |attr| + 3] == attr
  {
    var m := DottedMarker(root, attr);
    var p := "${" + root;
    var q := p + "." + attr;
    assert m == q + "}";
    assert q[..|p|] == p;
    assert p[2..] == root;
    assert m[2..|root| + 2] == q[2..|root| + 2] == p[2..] == root;
    assert m[|root| + 3..|root| + |attr| + 3] == q[|root| + 3..] == attr;
  }

  /** A text laid out as `${`, `root`, `.`, `attr`, `}` is the dotted marker of `root.attr`. */
  lemma DottedMarkerFromParts(w: string, root: string, attr: string)
    requires |w| == |root| + |attr| + 4 && w[0] == '$' && w[1] == '{'
    requires w[|root| + 2] == '.' && w[|w| - 1] == '}'
    requires w[2..|root| + 2] == root && w[|root| + 3..|w| - 1] == attr
    ensures w == DottedMarker(root, attr)
  {
    var m := DottedMarker(root, attr);
    DottedMarkerChars(root, attr);
    forall k | 0 <= k < |w|
      ensures w[k] == m[k]
    {
      if 2 <= k < |root| + 2 {
        assert w[k] == w[2..|root| + 2][k - 2] == m[2..|root| + 2][k - 2] == m[k];
      } else if |root| + 3 <= k < |w| - 1 {
        assert w[k] == w[|root| + 3..|w| - 1][k - |root| - 3] == m[|root| + 3..|w| - 1][k - |root| - 3] == m[k];
      }
    }
  }

  /** The plain match that starts at index `i`, if there is one. `PlainAtSound` and
      `PlainAtComplete` relate it to the grammar. */
  function PlainAt(s: string, i: nat): (r: Option<PlainMatch>)
    ensures r.Some? ==> r.value.start == i && r.value.end == i + |r.value.key| + 3
  {
    if i + 1 < |s| && s[i] == '$' && s[i + 1] == '{' then
      var e := WordEnd(s, i + 2);
      if e > i + 2 && e < |s| && s[e] == '}' then
        Some(PlainMatch(i, e + 1, s[i + 2..e]))
      else
        None
    else
      None
  }

  /** What `PlainAt` reports is a plain marker. */
  lemma PlainAtSound(s: string, i: nat)
    requires PlainAt(s, i).Some?
    ensures IsPlainMarkerAt(s, i, PlainAt(s, i).value.key)
  {
    var e := WordEnd(s, i + 2);
    var key := s[i + 2..e];
    assert IsWord(key) by {
      forall t | 0 <= t < |key|
        ensures IsWordChar(key[t])
      {
        assert key[t] == s[i + 2 + t];
      }
    }
    assert s[i..e + 1] == [s[i], s[i + 1]] + key + [s[e]];
  }

  /** Every plain marker at `i` is the one `PlainAt` reports. */
  lemma PlainAtComplete(s: string, i: nat, key: string)
    requires IsPlainMarkerAt(s, i, key)
    ensures PlainAt(s, i) == Some(PlainMatch(i, i + |key| + 3, key))
  {
    PlainMarkerShape(s, i, key);
  }

  /** Reading a plain marker off `s` at `i`: its key ends at the brace. */
  lemma PlainMarkerShape(s: string, i: nat, key: string)
    requires IsPlainMarkerAt(s, i, key)
    ensures s[i] == '$' && s[i + 1] == '{'
    ensures WordEnd(s, i + 2) == i + 2 + |key| && s[i + 2 + |key|] == '}'
    ensures s[i + 2..i + 2 + |key|] == key
  {
    var n := |key| + 3;
    var w := s[i..i + n];
    PlainMarkerChars(key);
    assert w[0] == '$' && w[1] == '{' && w[n - 1] == '}';
    SliceOfSlice(s, i, i + n, 2, n - 1);
    WordRunEnd(s, i + 2, key);
  }

  /** The scan for a dotted marker at `i` succeeds: `${`, a word, a dot, a word, `}`. */
  predicate DottedShapeAt(s: string, i: nat) {
    i + 1 < |s| && s[i] == '$' && s[i + 1] == '{'
    && var d := WordEnd(s, i + 2);
    d > i + 2 && d < |s| && s[d] == '.'
    && var e := WordEnd(s, d + 1);
    e > d + 1 && e < |s| && s[e] == '}'
  }

  /** The dotted match that starts at index `i`, if there is one. `DottedAtSound` and
      `DottedAtComplete` relate it to the grammar. */
  function DottedAt(s: string, i: nat): (r: Option<DottedMatch>)
    ensures r.Some? ==> var m := r.value;
                        m.start == i && |m.head| > 1 && m.head[|m.head| - 1] == '.'
                        && m.end == i + |m.head| + |m.attr| + 3
  {
    if DottedShapeAt(s, i) then
      var d := WordEnd(s, i + 2);
      var e := WordEnd(s, d + 1);
      Some(DottedMatch(i, e + 1, s[i + 2..d] + ".", s[d + 1..e]))
    else
      None
  }

  /** A run of word characters between `j` and `k` is a word. */
  lemma WordBetween(s: string, j: nat, k: nat)
    requires j < k <= |s| && forall t :: j <= t < k ==> IsWordChar(s[t])
    ensures IsWord(s[j..k])
  {
    forall t | 0 <= t < k - j
      ensures IsWordChar(s[j..k][t])
    {
      assert s[j..k][t] == s[j + t];
    }
  }

  /** What `DottedAt` reports is a dotted marker, and its root name is group 2 without the dot. */
  lemma DottedAtSound(s: string, i: nat)
    requires DottedAt(s, i).Some?
    ensures var m := DottedAt(s, i).value;
            IsDottedMarkerAt(s, i, RootName(m.head), m.attr)
  {
    var d := WordEnd(s, i + 2);
    var e := WordEnd(s, d + 1);
    assert RootName(s[i + 2..d] + ".") == s[i + 2..d];
    DottedPartsAreMarker(s, i, d, e);
  }

  /** `${`, a word run up to the dot at `d`, a word run up to the brace at `e`: a dotted marker. */
  lemma DottedPartsAreMarker(s: string, i: nat, d: nat, e: nat)
    requires i + 2 < d && d + 1 < e < |s|
    requires s[i] == '$' && s[i + 1] == '{' && s[d] == '.' && s[e] == '}'
    requires forall t :: i + 2 <= t < d ==> IsWordChar(s[t])
    requires forall t :: d + 1 <= t < e ==> IsWordChar(s[t])
    ensures IsDottedMarkerAt(s, i, s[i + 2..d], s[d + 1..e])
  {
    var root, attr := s[i + 2..d], s[d + 1..e];
    WordBetween(s, i + 2, d);
    WordBetween(s, d + 1, e);
    var w := s[i..e + 1];
    SliceOfSlice(s, i, e + 1, 2, d - i);
    SliceOfSlice(s, i, e + 1, d + 1 - i, e - i);
    DottedMarkerFromParts(w, root, attr);
  }

  /** Every dotted marker at `i` is the one `DottedAt` reports. */
  lemma DottedAtComplete(s: string, i: nat, root: string, attr: string)
    requires IsDottedMarkerAt(s, i, root, attr)
    ensures DottedAt(s, i) == Some(DottedMatch(i, i + |root| + |attr| + 4, root + ".", attr))
  {
    DottedMarkerShape(s, i, root, attr);
  }

  /** Reading a dotted marker off `s` at `i`: its root ends at the dot, its attribute at the brace. */
  lemma DottedMarkerShape(s: string, i: nat, root: string, attr: string)
    requires IsDottedMarkerAt(s, i, root, attr)
    ensures s[i] == '$' && s[i + 1] == '{'
    ensures WordEnd(s, i + 2) == i + 2 + |root| && s[i + 2 + |root|] == '.'
    ensures WordEnd(s, i + 3 + |root|) == i + 3 + |root| + |attr| && s[i + 3 + |root| + |attr|] == '}'
    ensures s[i + 2..i + 2 + |root|] == root && s[i + 3 + |root|..i + 3 + |root| + |attr|] == attr
  {
    DottedMarkerSlices(s, i, root, attr);
    WordRunEnd(s, i + 2, root);
    WordRunEnd(s, i + 3 + |root|, attr);
  }

  /** The characters and slices of a dotted marker, read off `s`. */
  lemma DottedMarkerSlices(s: string, i: nat, root: string, attr: string)
    requires IsDottedMarkerAt(s, i, root, attr)
    ensures s[i] == '$' && s[i + 1] == '{'
    ensures s[i + 2 + |root|] == '.' && s[i + 3 + |root| + |attr|] == '}'
    ensures s[i + 2..i + 2 + |root|] == root && s[i + 3 + |root|..i + 3 + |root| + |attr|] == attr
  {
    var n := |root| + |attr| + 4;
    var w := s[i..i + n];
    DottedMarkerChars(root, attr);
    assert w[0] == '$' && w[1] == '{' && w[|root| + 2] == '.' && w[n - 1] == '}';
    SliceOfSlice(s, i, i + n, 2, |root| + 2);
    SliceOfSlice(s, i, i + n, |root| + 3, n - 1);
  }

  // ---------------------------------------------------------------------
  // Leftmost scanning

  function FindPlainFrom(s: string, from: nat): (r: Option<PlainMatch>)
    requires from <= |s|
    ensures r.Some? ==> from <= r.value.start && PlainAt(s, r.value.start) == r
                        && forall j :: from <= j < r.value.start ==> PlainAt(s, j).None?
    ensures r.None? ==> forall j :: from <= j < |s| ==> PlainAt(s, j).None?
    decreases |s| - from
  {
    if from == |s| then None
    else if PlainAt(s, from).Some? then PlainAt(s, from)
    else FindPlainFrom(s, from + 1)
  }

  /** `Matcher.find` for the plain pattern: the leftmost plain marker, or none. */
  function FindPlain(s: string): (r: Option<PlainMatch>)
    ensures r.Some? ==> IsFirstPlainMarker(s, r.value.start, r.value.key)
                        && r.value.end == r.value.start + |r.value.key| + 3
    ensures r.None? <==> NoPlainMarker(s)
  {
    var r := FindPlainFrom(s, 0);
    NoPlainMarkerWhereNoMatch(s, if r.Some? then r.value.start else |s|);
    if r.Some? then
      PlainAtSound(s, r.value.start);
      r
    else
      r
  }

  /** Where `PlainAt` finds nothing before `n`, no plain marker starts before `n`;
      and no marker starts at or past the end. */
  lemma NoPlainMarkerWhereNoMatch(s: string, n: nat)
    requires forall j :: 0 <= j < n ==> PlainAt(s, j).None?
    ensures forall j: nat, k :: j < n ==> !IsPlainMarkerAt(s, j, k)
    ensures forall j: nat, k :: j >= |s| ==> !IsPlainMarkerAt(s, j, k)
  {
    forall j: nat, k | j < n && IsPlainMarkerAt(s, j, k)
      ensures false
    {
      PlainAtComplete(s, j, k);
    }
  }

  function FindDottedFrom(s: string, from: nat): (r: Option<DottedMatch>)
    requires from <= |s|
    ensures r.Some? ==> from <= r.value.start && DottedAt(s, r.value.start) == r
                        && forall j :: from <= j < r.value.start ==> DottedAt(s, j).None?
    ensures r.None? ==> forall j :: from <= j < |s| ==> DottedAt(s, j).None?
    decreases |s| - from
  {
    if from == |s| then None
    else if DottedAt(s, from).Some? then DottedAt(s, from)
    else FindDottedFrom(s, from + 1)
  }

  /** `Matcher.find` for the dotted pattern: the leftmost dotted marker, or none. */
  function FindDotted(s: string): (r: Option<DottedMatch>)
    ensures r.Some? ==> var m := r.value;
                        |m.head| > 1 && m.head[|m.head| - 1] == '.'
                        && m.end == m.start + |m.head| + |m.attr| + 3
                        && IsFirstDottedMarker(s, m.start, RootName(m.head), m.attr)
    ensures r.None? <==> NoDottedMarker(s)
  {
    var r := FindDottedFrom(s, 0);
    NoDottedMarkerWhereNoMatch(s, if r.Some? then r.value.start else |s|);
    if r.Some? then
      DottedAtSound(s, r.value.start);
      r
    else
      r
  }

  /** Where `DottedAt` finds nothing before `n`, no dotted marker starts before `n`;
      and no marker starts at or past the end. */
  lemma NoDottedMarkerWhereNoMatch(s: string, n: nat)
    requires forall j :: 0 <= j < n ==> DottedAt(s, j).None?
    ensures forall j: nat, r, a :: j < n ==> !IsDottedMarkerAt(s, j, r, a)
    ensures forall j: nat, r, a :: j >= |s| ==> !IsDottedMarkerAt(s, j, r, a)
  {
    forall j: nat, r, a | j < n && IsDottedMarkerAt(s, j, r, a)
      ensures false
    {
      DottedAtComplete(s, j, r, a);
    }
  }

  // ---------------------------------------------------------------------
  // Properties of the grammar and of the scanners

  /** The leftmost plain marker, as the grammar defines it, is the one `FindPlain` reports. */
  lemma FirstPlainMarkerFound(s: string, i: nat, key: string)
    requires IsFirstPlainMarker(s, i, key)
    ensures FindPlain(s) == Some(PlainMatch(i, i + |key| + 3, key))
  {
    PlainAtComplete(s, i, key);
  }

  /** The leftmost dotted marker, as the grammar defines it, is the one `FindDotted`
      reports, and its root name is group 2 without the trailing dot. */
  lemma FirstDottedMarkerFound(s: string, i: nat, root: string, attr: string)
    requires IsFirstDottedMarker(s, i, root, attr)
    ensures FindDotted(s) == Some(DottedMatch(i, i + |root| + |attr| + 4, root + ".", attr))
    ensures RootName(FindDotted(s).value.head) == root
  {
    DottedAtComplete(s, i, root, attr);
    assert RootName(root + ".") == root;
  }

  /** The plain pattern never matches where a dotted marker starts. */
  lemma DottedIsNotPlain(s: string, i: nat, root: string, attr: string)
    requires IsDottedMarkerAt(s, i, root, attr)
    ensures forall key :: !IsPlainMarkerAt(s, i, key)
  {
    DottedMarkerShape(s, i, root, attr);
    assert PlainAt(s, i) == None;
    forall key | IsPlainMarkerAt(s, i, key)
      ensures false
    {
      PlainAtComplete(s, i, key);
    }
  }

  /** Every marker starts with `$`: where there is none, no marker starts. */
  lemma NoMarkerBefore(s: string, i: nat)
    requires i <= |s| && '$' !in s[..i]
    ensures forall j: nat, k :: j < i ==> !IsPlainMarkerAt(s, j, k)
    ensures forall j: nat, r, a :: j < i ==> !IsDottedMarkerAt(s, j, r, a)
  {
    forall j: nat, k | j < i && IsPlainMarkerAt(s, j, k)
      ensures false
    {
      PlainMarkerShape(s, j, k);
    }
    forall j: nat, r, a | j < i && IsDottedMarkerAt(s, j, r, a)
      ensures false
    {
      DottedMarkerShape(s, j, r, a);
    }
  }

  /** A text without `$` holds no marker of either kind. */
  lemma DollarFreeHasNoMarker(s: string)
    requires '$' !in s
    ensures NoPlainMarker(s) && NoDottedMarker(s)
  {
    assert s[..|s|] == s;
    NoMarkerBefore(s, |s|);
  }
}
