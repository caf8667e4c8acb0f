/**
 * Text preparation in the consent-PDF generator: `sanitize` normalises the
 * whitespace of a string and `wrapText` packs its words greedily into lines
 * no wider than a maximum, measured with a font metric. Font metrics are
 * floating-point library calls, so the width of a string is a parameter
 * `width: string -> nat`.
 */
module ConsentPdfText {
  import opened JsText

  // ---------------------------------------------------------------------
  // sanitize: text.replace(/[\n\r\t]/g, " ").replace(/\s+/g, " ").trim()
  // ---------------------------------------------------------------------

  predicate IsControl(c: char) {
    c == '\n' || c == '\r' || c == '\t'
  }

  /** The first replace: every newline, carriage return and tab becomes a space. */
  function ReplaceControls(s: string): (r: string)
    ensures |r| == |s|
    ensures forall i :: 0 <= i < |s| ==> r[i] == if IsControl(s[i]) then ' ' else s[i]
  {
    seq(|s|, i requires 0 <= i < |s| => if IsControl(s[i]) then ' ' else s[i])
  }

  /** The characters of `s` that are not whitespace, in order. */
  function NonSpace(s: string): string
    decreases |s|
  {
    if s == [] then [] else (if IsSpace(s[0]) then [] else [s[0]]) + NonSpace(s[1..])
  }

  lemma {:induction false} NonSpaceAppend(a: string, b: string)
    ensures NonSpace(a + b) == NonSpace(a) + NonSpace(b)
    decreases |a|
  {
    if a == [] {
      assert a + b == b;
    } else {
      var h := if IsSpace(a[0]) then [] else [a[0]];
      assert (a + b)[0] == a[0] && (a + b)[1..] == a[1..] + b;
      calc {
        NonSpace(a + b);
        h + NonSpace(a[1..] + b);
        { NonSpaceAppend(a[1..], b); }
        h + (NonSpace(a[1..]) + NonSpace(b));
        (h + NonSpace(a[1..])) + NonSpace(b);
        NonSpace(a) + NonSpace(b);
      }
    }
  }

  lemma {:induction false} NonSpaceOfSpaces(a: string)
    requires AllSpace(a)
    ensures NonSpace(a) == []
    decreases |a|
  {
    if a != [] { NonSpaceOfSpaces(a[1..]); }
  }

  lemma NonSpaceReplaceControls(s: string)
    ensures NonSpace(ReplaceControls(s)) == NonSpace(s)
    decreases |s|
  {
    if s != [] {
      assert ReplaceControls(s)[1..] == ReplaceControls(s[1..]);
      NonSpaceReplaceControls(s[1..]);
    }
  }

  /** Every whitespace character is a plain space. */
  predicate OnlyBlanks(s: string) {
    forall i :: 0 <= i < |s| && IsSpace(s[i]) ==> s[i] == ' '
  }

  /** No two whitespace characters are adjacent. */
  predicate NoSpaceRuns(s: string) {
    forall i :: 0 <= i < |s| - 1 && IsSpace(s[i]) ==> !IsSpace(s[i + 1])
  }

  /** The normal form `sanitize` produces. */
  predicate Normalised(s: string) {
    OnlyBlanks(s) && NoSpaceRuns(s) && (s == [] || (!IsSpace(s[0]) && !IsSpace(s[|s| - 1])))
  }

  /** The second replace: each maximal run of whitespace becomes one space. */
  function CollapseSpaces(s: string): (r: string)
    ensures (r == []) == (s == [])
    ensures r != [] ==> (IsSpace(r[0]) <==> IsSpace(s[0])) && (IsSpace(r[0]) ==> r[0] == ' ')
    ensures r != [] ==> (IsSpace(r[|r| - 1]) <==> IsSpace(s[|s| - 1]))
    decreases |s|
  {
    if s == [] then []
    else if IsSpace(s[0]) then
      var t := TrimStart(s);
      LeadingSpacesSpec(s);
      assert t != [] ==> t[|t| - 1] == s[|s| - 1];
      assert t == [] ==> s[|s| - 1] == s[..LeadingSpaces(s)][|s| - 1];
      " " + CollapseSpaces(t)
    else
      assert s[1..] != [] ==> s[1..][|s[1..]| - 1] == s[|s| - 1];
      [s[0]] + CollapseSpaces(s[1..])
  }

  /** After collapsing, every whitespace character is a single space standing alone. */
  lemma {:induction false} CollapseShape(s: string)
    ensures OnlyBlanks(CollapseSpaces(s)) && NoSpaceRuns(CollapseSpaces(s))
    decreases |s|
  {
    if s != [] {
      var r := CollapseSpaces(s);
      if IsSpace(s[0]) {
        var t := TrimStart(s);
        var rest := CollapseSpaces(t);
        LeadingSpacesSpec(s);
        CollapseShape(t);
        assert r == " " + rest;
        forall i | 0 <= i < |r| && IsSpace(r[i]) ensures r[i] == ' ' {
          if i > 0 { assert r[i] == rest[i - 1]; }
        }
        forall i | 0 <= i < |r| - 1 && IsSpace(r[i]) ensures !IsSpace(r[i + 1]) {
          if i > 0 { assert r[i] == rest[i - 1] && r[i + 1] == rest[i]; }
        }
      } else {
        var rest := CollapseSpaces(s[1..]);
        CollapseShape(s[1..]);
        assert r == [s[0]] + rest;
        forall i | 0 <= i < |r| && IsSpace(r[i]) ensures r[i] == ' ' {
          if i > 0 { assert r[i] == rest[i - 1]; }
        }
        forall i | 0 <= i < |r| - 1 && IsSpace(r[i]) ensures !IsSpace(r[i + 1]) {
          if i > 0 { assert r[i] == rest[i - 1] && r[i + 1] == rest[i]; }
        }
      }
    }
  }

  /** Whitespace in front of a string adds nothing to its text. */
  lemma NonSpaceAfterSpaces(p: string, t: string)
    requires AllSpace(p)
    ensures NonSpace(p + t) == NonSpace(t)
  {
    NonSpaceAppend(p, t);
    NonSpaceOfSpaces(p);
  }

  lemma NonSpaceSuffix(s: string, a: nat)
    requires a <= |s| && AllSpace(s[..a])
    ensures NonSpace(s[a..]) == NonSpace(s)
  {
    assert s == s[..a] + s[a..];
    NonSpaceAfterSpaces(s[..a], s[a..]);
  }

  lemma NonSpaceCons(c: char, t: string)
    ensures NonSpace([c] + t) == (if IsSpace(c) then [] else [c]) + NonSpace(t)
  {
    assert ([c] + t)[0] == c && ([c] + t)[1..] == t;
  }

  /** A run of whitespace replaced by one space, in front of text equal to the rest's. */
  lemma KeepsAfterRun(s: string, n: nat, c: string)
    requires 0 < n <= |s| && AllSpace(s[..n]) && NonSpace(c) == NonSpace(s[n..])
    ensures NonSpace(" " + c) == NonSpace(s)
  {
    NonSpaceSuffix(s, n);
    NonSpaceAfterSpaces(" ", c);
  }

  /** A character kept in front of text equal to the rest's. */
  lemma KeepsAfterChar(s: string, c: string)
    requires s != [] && NonSpace(c) == NonSpace(s[1..])
    ensures NonSpace([s[0]] + c) == NonSpace(s)
  {
    assert s == [s[0]] + s[1..];
    NonSpaceCons(s[0], s[1..]);
    NonSpaceCons(s[0], c);
  }

  /** Collapsing loses no character other than whitespace. */
  lemma {:induction false} CollapseKeepsText(s: string)
    ensures NonSpace(CollapseSpaces(s)) == NonSpace(s)
    decreases |s|
  {
    if s != [] {
      if IsSpace(s[0]) {
        var t := TrimStart(s);
        LeadingSpacesSpec(s);
        CollapseKeepsText(t);
        KeepsAfterRun(s, LeadingSpaces(s), CollapseSpaces(t));
      } else {
        CollapseKeepsText(s[1..]);
        KeepsAfterChar(s, CollapseSpaces(s[1..]));
      }
    }
  }

  /** Trimming a string that has no whitespace runs gives the normal form. */
  lemma TrimCollapsed(y: string)
    requires OnlyBlanks(y) && NoSpaceRuns(y)
    ensures Normalised(Trim(y))
  {
    var r := Trim(y);
    var a := TrimIsSlice(y);
    forall i | 0 <= i < |r| ensures r[i] == y[a + i] {
    }
  }

  /** Trimming loses no character other than whitespace. */
  /** A slice with only whitespace around it has all of the text. */
  lemma NonSpaceSlice(y: string, a: nat, n: nat)
    requires a + n <= |y| && AllSpace(y[..a]) && AllSpace(y[a + n..])
    ensures NonSpace(y[a..a + n]) == NonSpace(y)
  {
    var p, r, q := y[..a], y[a..a + n], y[a + n..];
    assert y == p + (r + q);
    NonSpaceAfterSpaces(p, r + q);
    NonSpaceAppend(r, q);
    NonSpaceOfSpaces(q);
  }

  lemma TrimKeepsText(y: string)
    ensures NonSpace(Trim(y)) == NonSpace(y)
  {
    var a := TrimIsSlice(y);
    NonSpaceSlice(y, a, |Trim(y)|);
  }

  /** `sanitize`. */
  function Sanitize(text: string): string {
    Trim(CollapseSpaces(ReplaceControls(text)))
  }

  /** The result of `sanitize` is in normal form and keeps every
      non-whitespace character of the input, in order. */
  lemma SanitizeShape(text: string)
    ensures Normalised(Sanitize(text))
    ensures NonSpace(Sanitize(text)) == NonSpace(text)
  {
    var x := ReplaceControls(text);
    var y := CollapseSpaces(x);
    CollapseShape(x);
    CollapseKeepsText(x);
    TrimCollapsed(y);
    TrimKeepsText(y);
    NonSpaceReplaceControls(text);
  }

  lemma {:induction false} CollapseFixesBlanks(s: string)
    requires OnlyBlanks(s) && NoSpaceRuns(s)
    requires s == [] || !IsSpace(s[|s| - 1])
    ensures CollapseSpaces(s) == s
    decreases |s|
  {
    if s != [] {
      if IsSpace(s[0]) {
        assert |s| >= 2 && !IsSpace(s[1]);
        assert LeadingSpaces(s[1..]) == 0;
        assert LeadingSpaces(s) == 1;
        CollapseFixesBlanks(s[1..]);
      } else {
        CollapseFixesBlanks(s[1..]);
      }
    }
  }

  /** `sanitize` puts the words of the text, and nothing else, one space
      apart: its result is in normal form (no newline, carriage return or
      tab, no whitespace other than single spaces, nothing at either end),
      keeps every non-whitespace character in order, and is the text's
      maximal runs of non-whitespace joined with single spaces, so that
      splitting it on spaces gives back exactly those runs. */
  lemma SanitizeSpec(text: string)
    ensures Normalised(Sanitize(text))
    ensures NonSpace(Sanitize(text)) == NonSpace(text)
    ensures Sanitize(text) == Join(WordsIn(text), " ")
    ensures Sanitize(text) == "" <==> WordsIn(text) == []
    ensures Sanitize(text) != "" ==> Split(Sanitize(text), ' ') == WordsIn(text)
  {
    SanitizeShape(text);
    SanitizeKeepsWords(text);
    NormalisedIsJoinedWords(Sanitize(text));
  }

  /** No stage of `sanitize` adds, drops, splits or merges a word. */
  lemma SanitizeKeepsWords(text: string)
    ensures WordsIn(Sanitize(text)) == WordsIn(text)
  {
    var x := ReplaceControls(text);
    var y := CollapseSpaces(x);
    WordsInReplaceControls(text);
    CollapseKeepsWords(x);
    TrimKeepsWords(y);
  }

  /** Trimming keeps the words. */
  lemma TrimKeepsWords(y: string)
    ensures WordsIn(Trim(y)) == WordsIn(y)
  {
    var z := Trim(y);
    var a := TrimIsSlice(y);
    var q := y[a + |z|..];
    assert y == y[..a] + (z + q);
    WordsInAfterSpaces(y[..a], z + q);
    WordsInBeforeSpaces(z, q);
  }

  /** A string in normal form is its words joined with single spaces. */
  lemma NormalisedIsJoinedWords(z: string)
    requires Normalised(z)
    ensures z == Join(WordsIn(z), " ")
    ensures z == "" <==> WordsIn(z) == []
    ensures z != "" ==> Split(z, ' ') == WordsIn(z)
  {
    if z != "" {
      SplitNormalisedWords(z);
      SplitJoins(z, ' ');
      assert [' '] == " ";
    }
  }

  /** A string already in normal form is left alone by `sanitize`. */
  lemma SanitizeFixesNormalised(s: string)
    requires Normalised(s)
    ensures Sanitize(s) == s
  {
    assert ReplaceControls(s) == s;
    CollapseFixesBlanks(s);
    TrimOfTrimmed(s);
  }

  /** `sanitize` is idempotent. */
  lemma SanitizeIdempotent(text: string)
    ensures Sanitize(Sanitize(text)) == Sanitize(text)
  {
    SanitizeShape(text);
    SanitizeFixesNormalised(Sanitize(text));
  }

  // ---------------------------------------------------------------------
  // The words of a text: its maximal runs of non-whitespace characters
  // ---------------------------------------------------------------------

  /** The maximal runs of non-whitespace characters of `s`, in order. A
      non-whitespace character followed by another one begins the word that
      continues there; followed by whitespace or the end, it ends its word. */
  function WordsIn(s: string): (ws: seq<string>)
    ensures s != [] && !IsSpace(s[0]) ==> ws != []
    decreases |s|
  {
    if s == [] then []
    else
      var rest := WordsIn(s[1..]);
      if IsSpace(s[0]) then rest
      else if |s| > 1 && !IsSpace(s[1]) then [[s[0]] + rest[0]] + rest[1..]
      else [[s[0]]] + rest
  }

  /** Words are non-empty and hold no whitespace. */
  lemma {:induction false} WordsInGood(s: string)
    ensures GoodWords(WordsIn(s))
    decreases |s|
  {
    if s != [] {
      WordsInGood(s[1..]);
      var rest := WordsIn(s[1..]);
      var ws := WordsIn(s);
      if !IsSpace(s[0]) {
        if |s| > 1 && !IsSpace(s[1]) {
          var w := [s[0]] + rest[0];
          assert ws == [w] + rest[1..];
          assert NoSpaceIn(w) by {
            forall i | 0 <= i < |w| ensures !IsSpace(w[i]) {
              if i > 0 { assert w[i] == rest[0][i - 1]; }
            }
          }
          forall k | 0 <= k < |ws| ensures ws[k] != [] && NoSpaceIn(ws[k]) {
            if k > 0 { assert ws[k] == rest[k]; }
          }
        } else {
          assert ws == [[s[0]]] + rest;
          forall k | 0 <= k < |ws| ensures ws[k] != [] && NoSpaceIn(ws[k]) {
            if k > 0 { assert ws[k] == rest[k - 1]; }
          }
        }
      }
    }
  }

  /** Whitespace in front of a text adds no word. */
  lemma {:induction false} WordsInAfterSpaces(p: string, m: string)
    requires AllSpace(p)
    ensures WordsIn(p + m) == WordsIn(m)
    decreases |p|
  {
    if p == [] {
      assert p + m == m;
    } else {
      assert (p + m)[0] == p[0] && (p + m)[1..] == p[1..] + m;
      WordsInAfterSpaces(p[1..], m);
    }
  }

  /** Whitespace behind a text adds no word. */
  lemma {:induction false} WordsInBeforeSpaces(m: string, q: string)
    requires AllSpace(q)
    ensures WordsIn(m + q) == WordsIn(m)
    decreases |m|
  {
    if m == [] {
      assert m + q == q + [];
      WordsInAfterSpaces(q, []);
    } else {
      assert (m + q)[0] == m[0] && (m + q)[1..] == m[1..] + q;
      WordsInBeforeSpaces(m[1..], q);
      if |m| > 1 {
        assert (m + q)[1] == m[1];
      } else if q != [] {
        assert (m + q)[1] == q[0];
      }
    }
  }

  /** Turning newlines, carriage returns and tabs into spaces keeps the words. */
  lemma {:induction false} WordsInReplaceControls(s: string)
    ensures WordsIn(ReplaceControls(s)) == WordsIn(s)
    decreases |s|
  {
    if s != [] {
      var r := ReplaceControls(s);
      assert r[1..] == ReplaceControls(s[1..]);
      WordsInReplaceControls(s[1..]);
      assert IsSpace(r[0]) <==> IsSpace(s[0]);
      if |s| > 1 {
        assert IsSpace(r[1]) <==> IsSpace(s[1]);
      }
    }
  }

  /** The words of `[c] + m` depend on `m` only through its words and
      whether it starts with whitespace. */
  lemma WordsInConsSame(c: char, m1: string, m2: string)
    requires WordsIn(m1) == WordsIn(m2) && (m1 == []) == (m2 == [])
    requires m1 != [] ==> (IsSpace(m1[0]) <==> IsSpace(m2[0]))
    ensures WordsIn([c] + m1) == WordsIn([c] + m2)
  {
    assert ([c] + m1)[1..] == m1 && ([c] + m2)[1..] == m2;
    if m1 != [] {
      assert ([c] + m1)[1] == m1[0] && ([c] + m2)[1] == m2[0];
    }
  }

  /** Collapsing whitespace runs keeps the words: no word is split or merged. */
  lemma {:induction false} CollapseKeepsWords(s: string)
    ensures WordsIn(CollapseSpaces(s)) == WordsIn(s)
    decreases |s|
  {
    if s != [] {
      if IsSpace(s[0]) {
        var n := LeadingSpaces(s);
        var t := TrimStart(s);
        LeadingSpacesSpec(s);
        CollapseKeepsWords(t);
        WordsInAfterSpaces(" ", CollapseSpaces(t));
        assert s == s[..n] + t;
        WordsInAfterSpaces(s[..n], t);
      } else {
        CollapseKeepsWords(s[1..]);
        WordsInConsSame(s[0], CollapseSpaces(s[1..]), s[1..]);
        assert s == [s[0]] + s[1..];
      }
    }
  }

  /** Splitting a string with single spaces only, none at its end, on spaces
      gives its words, after one empty piece if it starts with a space. */
  lemma {:induction false} SplitBlankWords(s: string)
    requires OnlyBlanks(s) && NoSpaceRuns(s)
    requires s == [] || !IsSpace(s[|s| - 1])
    ensures s != [] && !IsSpace(s[0]) ==> Split(s, ' ') == WordsIn(s)
    ensures s != [] && IsSpace(s[0]) ==> Split(s, ' ') == [[]] + WordsIn(s)
    decreases |s|
  {
    if s != [] {
      var t := s[1..];
      assert OnlyBlanks(t) by {
        forall i | 0 <= i < |t| && IsSpace(t[i]) ensures t[i] == ' ' { assert t[i] == s[i + 1]; }
      }
      assert NoSpaceRuns(t) by {
        forall i | 0 <= i < |t| - 1 && IsSpace(t[i]) ensures !IsSpace(t[i + 1]) {
          assert t[i] == s[i + 1] && t[i + 1] == s[i + 2];
        }
      }
      assert t != [] ==> t[|t| - 1] == s[|s| - 1];
      SplitBlankWords(t);
      if IsSpace(s[0]) {
        assert s[0] == ' ' && |s| > 1 && !IsSpace(s[1]);
        assert t[0] == s[1];
      } else {
        assert s[0] != ' ';
        var rest := Split(t, ' ');
        assert Split(s, ' ') == [[s[0]] + rest[0]] + rest[1..];
        if t == [] {
          assert rest == [[]] && [s[0]] + rest[0] == [s[0]];
        } else if IsSpace(t[0]) {
          assert s[1] == t[0];
          assert rest[0] == [] && rest[1..] == WordsIn(t);
          assert [s[0]] + rest[0] == [s[0]];
        } else {
          assert s[1] == t[0];
        }
      }
    }
  }

  /** Splitting a non-blank string in normal form on spaces gives its words. */
  lemma SplitNormalisedWords(s: string)
    requires Normalised(s) && s != []
    ensures Split(s, ' ') == WordsIn(s)
  {
    SplitBlankWords(s);
  }

  // ---------------------------------------------------------------------
  // The words of a sanitized string: sanitize(text).split(" ")
  // ---------------------------------------------------------------------

  predicate NoSpaceIn(w: string) {
    forall i :: 0 <= i < |w| ==> !IsSpace(w[i])
  }

  /** Words as `wrapText` receives them for a non-blank text: non-empty and space-free. */
  predicate GoodWords(ws: seq<string>) {
    forall k :: 0 <= k < |ws| ==> ws[k] != [] && NoSpaceIn(ws[k])
  }

  lemma {:induction false} SplitBlankFree(s: string)
    requires OnlyBlanks(s) && NoSpaceRuns(s)
    requires s == [] || !IsSpace(s[|s| - 1])
    ensures forall k :: 1 <= k < |Split(s, ' ')| ==> Split(s, ' ')[k] != []
    ensures s != [] && !IsSpace(s[0]) ==> Split(s, ' ')[0] != []
    ensures forall k :: 0 <= k < |Split(s, ' ')| ==> NoSpaceIn(Split(s, ' ')[k])
    decreases |s|
  {
    if s != [] {
      SplitBlankFree(s[1..]);
      if s[0] == ' ' {
        assert s[1..] != [] && !IsSpace(s[1..][0]);
      }
    }
  }

  /** Splitting a non-blank sanitized string on spaces yields non-empty, space-free words. */
  lemma WordsOfNormalised(s: string)
    requires Normalised(s) && s != []
    ensures GoodWords(Split(s, ' '))
  {
    SplitBlankFree(s);
  }

  /** The words the wrapper packs. */
  function Words(text: string): seq<string> {
    Split(Sanitize(text), ' ')
  }

  // ---------------------------------------------------------------------
  // wrapText
  // ---------------------------------------------------------------------

  /** What the loop of `wrapText` pushes, given the words still to come and the line under construction. */
  function WrapFrom(words: seq<string>, line: string, width: string -> nat, maxWidth: int): seq<string>
    decreases |words|
  {
    if words == [] then (if line != "" then [line] else [])
    else
      var word := words[0];
      var test := if line != "" then line + " " + word else word;
      if width(test) > maxWidth && line != "" then [line] + WrapFrom(words[1..], word, width, maxWidth)
      else WrapFrom(words[1..], test, width, maxWidth)
  }

  /** The lines `wrapText(text, font, size, maxWidth)` returns. */
  function WrapLines(text: string, width: string -> nat, maxWidth: int): seq<string> {
    WrapFrom(Words(text), "", width, maxWidth)
  }

  /** One turn of the loop of `wrapText`: what is pushed so far, followed by
      what the remaining words will push, stays the same. */
  lemma WrapFromStep(words: seq<string>, i: nat, lines: seq<string>, line: string, width: string -> nat, maxWidth: int)
    requires i < |words|
    ensures var test := if line != "" then line + " " + words[i] else words[i];
      lines + WrapFrom(words[i..], line, width, maxWidth) ==
        if width(test) > maxWidth && line != "" then (lines + [line]) + WrapFrom(words[i + 1..], words[i], width, maxWidth)
        else lines + WrapFrom(words[i + 1..], test, width, maxWidth)
  {
    assert words[i..][0] == words[i] && words[i..][1..] == words[i + 1..];
    var test := if line != "" then line + " " + words[i] else words[i];
    if width(test) > maxWidth && line != "" {
      assert lines + ([line] + WrapFrom(words[i + 1..], words[i], width, maxWidth))
        == (lines + [line]) + WrapFrom(words[i + 1..], words[i], width, maxWidth);
    }
  }

  /** `wrapText`, proved to return exactly `WrapLines`. */
  method WrapText(text: string, width: string -> nat, maxWidth: int) returns (lines: seq<string>)
    ensures lines == WrapLines(text, width, maxWidth)
  {
    lines := Pack(Words(text), width, maxWidth);
  }

  /** The greedy loop of `wrapText` over the sanitised words. */
  method Pack(words: seq<string>, width: string -> nat, maxWidth: int) returns (lines: seq<string>)
    ensures lines == WrapFrom(words, "", width, maxWidth)
  {
    lines := [];
    var line := "";
    for i := 0 to |words|
      invariant lines + WrapFrom(words[i..], line, width, maxWidth) == WrapFrom(words, "", width, maxWidth)
    {
      var word := words[i];
      var test := if line != "" then line + " " + word else word;
      WrapFromStep(words, i, lines, line, width, maxWidth);
      if width(test) > maxWidth && line != "" {
        lines := lines + [line];
        line := word;
      } else {
        line := test;
      }
    }
    assert words[|words|..] == [];
    if line != "" {
      lines := lines + [line];
    }
  }

  lemma JoinCons(a: string, rest: seq<string>, sep: string)
    requires rest != []
    ensures Join([a] + rest, sep) == a + sep + Join(rest, sep)
  {
    assert ([a] + rest)[1..] == rest;
  }

  lemma {:induction false} WrapFromNonEmpty(ws: seq<string>, line: string, width: string -> nat, maxWidth: int)
    requires line != ""
    ensures WrapFrom(ws, line, width, maxWidth) != []
    decreases |ws|
  {
    if ws != [] {
      var test := line + " " + ws[0];
      if !(width(test) > maxWidth) {
        WrapFromNonEmpty(ws[1..], test, width, maxWidth);
      }
    }
  }

  lemma {:induction false} WrapFromJoin(ws: seq<string>, line: string, width: string -> nat, maxWidth: int)
    requires GoodWords(ws)
    ensures Join(WrapFrom(ws, line, width, maxWidth), " ") == Join(if line == "" then ws else [line] + ws, " ")
    decreases |ws|
  {
    if ws != [] {
      var word := ws[0];
      var tail := ws[1..];
      assert ws == [word] + tail;
      assert GoodWords(tail);
      if line == "" {
        WrapFromJoin(tail, word, width, maxWidth);
      } else {
        var test := line + " " + word;
        if width(test) > maxWidth {
          WrapFromJoin(tail, word, width, maxWidth);
          WrapFromNonEmpty(tail, word, width, maxWidth);
          JoinCons(line, WrapFrom(tail, word, width, maxWidth), " ");
          JoinCons(line, ws, " ");
        } else {
          WrapFromJoin(tail, test, width, maxWidth);
          JoinCons(line, ws, " ");
          if tail != [] {
            JoinCons(test, tail, " ");
            JoinCons(word, tail, " ");
          }
        }
      }
    }
  }

  /** The empty string splits into one empty word, which packs into nothing. */
  lemma WrapOfEmpty(s: string, width: string -> nat, maxWidth: int)
    requires s == ""
    ensures WrapFrom(Split(s, ' '), "", width, maxWidth) == []
  {
    assert Split(s, ' ') == [""];
    assert WrapFrom([""], "", width, maxWidth) == WrapFrom([], "", width, maxWidth);
  }

  lemma WrapOfBlank(text: string, width: string -> nat, maxWidth: int)
    requires Sanitize(text) == ""
    ensures WrapLines(text, width, maxWidth) == []
  {
    WrapOfEmpty(Sanitize(text), width, maxWidth);
  }

  /** Joining the wrapped lines with single spaces gives back the sanitized text. */
  lemma WrapJoinsToSanitized(text: string, width: string -> nat, maxWidth: int)
    ensures Join(WrapLines(text, width, maxWidth), " ") == Sanitize(text)
  {
    var s := Sanitize(text);
    if s == [] {
      WrapOfBlank(text, width, maxWidth);
    } else {
      SanitizeShape(text);
      WordsOfNormalised(s);
      WrapFromJoin(Words(text), "", width, maxWidth);
      SplitJoins(s, ' ');
    }
  }

  /** Blank input yields no lines, and a non-blank one at least one. */
  lemma WrapBlankIffNoLines(text: string, width: string -> nat, maxWidth: int)
    ensures WrapLines(text, width, maxWidth) == [] <==> Sanitize(text) == ""
  {
    var s := Sanitize(text);
    if s == [] {
      WrapOfBlank(text, width, maxWidth);
    } else {
      WrapJoinsToSanitized(text, width, maxWidth);
    }
  }

  lemma {:induction false} WrapFromFits(ws: seq<string>, line: string, width: string -> nat, maxWidth: int)
    requires GoodWords(ws)
    requires ' ' in line ==> width(line) <= maxWidth
    ensures forall k :: 0 <= k < |WrapFrom(ws, line, width, maxWidth)| ==>
      var l := WrapFrom(ws, line, width, maxWidth)[k]; l != "" && (' ' in l ==> width(l) <= maxWidth)
    decreases |ws|
  {
    if ws != [] {
      var word := ws[0];
      assert GoodWords(ws[1..]);
      assert ' ' !in word by { assert NoSpaceIn(word); }
      var test := if line != "" then line + " " + word else word;
      if width(test) > maxWidth && line != "" {
        WrapFromFits(ws[1..], word, width, maxWidth);
      } else {
        WrapFromFits(ws[1..], test, width, maxWidth);
      }
    }
  }

  /** Only a line holding a single word may be wider than the maximum; no line is empty. */
  lemma WrapMultiWordLinesFit(text: string, width: string -> nat, maxWidth: int)
    ensures forall k :: 0 <= k < |WrapLines(text, width, maxWidth)| ==>
      var l := WrapLines(text, width, maxWidth)[k]; l != "" && (' ' in l ==> width(l) <= maxWidth)
  {
    var s := Sanitize(text);
    if s == [] {
      WrapOfBlank(text, width, maxWidth);
    } else {
      SanitizeShape(text);
      WordsOfNormalised(s);
      WrapFromFits(Words(text), "", width, maxWidth);
    }
  }

  /** The first word of a line: everything before its first space. */
  function FirstWord(l: string): string
    decreases |l|
  {
    if l == [] || l[0] == ' ' then [] else [l[0]] + FirstWord(l[1..])
  }

  lemma {:induction false} FirstWordOf(w: string, l: string)
    requires ' ' !in w && w <= l && (|l| == |w| || l[|w|] == ' ')
    ensures FirstWord(l) == w
    decreases |w|
  {
    if w != [] {
      assert l[0] == w[0];
      FirstWordOf(w[1..], l[1..]);
    }
  }

  /** The first line `WrapFrom` pushes starts with the line under construction, followed by nothing or a space. */
  lemma {:induction false} WrapFromHead(ws: seq<string>, line: string, width: string -> nat, maxWidth: int)
    requires line != ""
    ensures var r := WrapFrom(ws, line, width, maxWidth);
      r != [] && line <= r[0] && (|r[0]| == |line| || r[0][|line|] == ' ')
    decreases |ws|
  {
    if ws != [] {
      var test := line + " " + ws[0];
      if !(width(test) > maxWidth) {
        WrapFromHead(ws[1..], test, width, maxWidth);
      }
    }
  }

  /** Every line break in `r` was forced: the next line's first word would not have fitted. */
  predicate BreaksForced(r: seq<string>, width: string -> nat, maxWidth: int) {
    forall k :: 0 <= k < |r| - 1 ==> width(r[k] + " " + FirstWord(r[k + 1])) > maxWidth
  }

  lemma {:induction false} WrapFromGreedy(ws: seq<string>, line: string, width: string -> nat, maxWidth: int)
    requires GoodWords(ws)
    ensures BreaksForced(WrapFrom(ws, line, width, maxWidth), width, maxWidth)
    decreases |ws|
  {
    if ws != [] {
      var word := ws[0];
      assert GoodWords(ws[1..]);
      assert ' ' !in word by { assert NoSpaceIn(word); }
      var test := if line != "" then line + " " + word else word;
      if width(test) > maxWidth && line != "" {
        var rest := WrapFrom(ws[1..], word, width, maxWidth);
        WrapFromGreedy(ws[1..], word, width, maxWidth);
        WrapFromHead(ws[1..], word, width, maxWidth);
        FirstWordOf(word, rest[0]);
        var r := [line] + rest;
        forall k | 0 <= k < |r| - 1 ensures width(r[k] + " " + FirstWord(r[k + 1])) > maxWidth {
          if k > 0 { assert r[k] == rest[k - 1] && r[k + 1] == rest[k]; }
        }
      } else {
        assert WrapFrom(ws, line, width, maxWidth) == WrapFrom(ws[1..], test, width, maxWidth);
        WrapFromGreedy(ws[1..], test, width, maxWidth);
      }
    }
  }

  /** Greedy packing: every line break was forced, because the next line's
      first word would have made the line wider than the maximum. */
  lemma WrapIsGreedy(text: string, width: string -> nat, maxWidth: int)
    ensures BreaksForced(WrapLines(text, width, maxWidth), width, maxWidth)
  {
    var s := Sanitize(text);
    if s == [] {
      WrapOfBlank(text, width, maxWidth);
    } else {
      SanitizeShape(text);
      WordsOfNormalised(s);
      WrapFromGreedy(Words(text), "", width, maxWidth);
    }
  }

  /** The words of every line, in order, are exactly the words of the text:
      a word is never split across lines. */
  function LineWords(lines: seq<string>): seq<string>
    decreases |lines|
  {
    if lines == [] then [] else Split(lines[0], ' ') + LineWords(lines[1..])
  }

  lemma {:induction false} SplitAppend(a: string, b: string)
    ensures Split(a + " " + b, ' ') == Split(a, ' ') + Split(b, ' ')
    decreases |a|
  {
    if a == [] {
      assert a + " " + b == [' '] + b;
    } else if a[0] == ' ' {
      assert (a + " " + b)[1..] == a[1..] + " " + b;
      SplitAppend(a[1..], b);
    } else {
      assert (a + " " + b)[1..] == a[1..] + " " + b;
      SplitAppend(a[1..], b);
    }
  }

  /** A line pushed in front keeps its words in front. */
  lemma LineWordsCons(line: string, rest: seq<string>)
    ensures LineWords([line] + rest) == Split(line, ' ') + LineWords(rest)
  {
    assert ([line] + rest)[0] == line && ([line] + rest)[1..] == rest;
  }

  /** The words of the line under construction once `word` joins it. */
  lemma JoinedWords(line: string, word: string, ws: seq<string>)
    requires Split(word, ' ') == [word]
    ensures var test := if line != "" then line + " " + word else word;
      Split(test, ' ') + ws == (if line == "" then [] else Split(line, ' ')) + ([word] + ws)
  {
    if line != "" { SplitAppend(line, word); }
  }

  lemma {:induction false} WrapFromWords(ws: seq<string>, line: string, width: string -> nat, maxWidth: int)
    requires GoodWords(ws)
    ensures LineWords(WrapFrom(ws, line, width, maxWidth)) == (if line == "" then [] else Split(line, ' ')) + ws
    decreases |ws|
  {
    if ws == [] {
      if line != "" { LineWordsCons(line, []); }
    } else {
      var word := ws[0];
      assert GoodWords(ws[1..]);
      assert ws == [word] + ws[1..];
      SplitOfWord(word);
      var test := if line != "" then line + " " + word else word;
      if width(test) > maxWidth && line != "" {
        WrapFromWords(ws[1..], word, width, maxWidth);
        LineWordsCons(line, WrapFrom(ws[1..], word, width, maxWidth));
      } else {
        WrapFromWords(ws[1..], test, width, maxWidth);
        JoinedWords(line, word, ws[1..]);
      }
    }
  }

  lemma {:induction false} SplitOfWord(w: string)
    requires w != [] && NoSpaceIn(w)
    ensures Split(w, ' ') == [w]
    decreases |w|
  {
    if |w| > 1 { SplitOfWord(w[1..]); }
    assert w == [w[0]] + w[1..];
  }

  /** Wrapping never splits a word: the words of the lines are the words of the text. */
  lemma WrapKeepsWords(text: string, width: string -> nat, maxWidth: int)
    requires Sanitize(text) != ""
    ensures LineWords(WrapLines(text, width, maxWidth)) == Words(text)
    ensures LineWords(WrapLines(text, width, maxWidth)) == WordsIn(text)
  {
    SanitizeSpec(text);
    WordsOfNormalised(Sanitize(text));
    WrapFromWords(Words(text), "", width, maxWidth);
  }
}
