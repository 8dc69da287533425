/** String helpers with the semantics of the Python `str` methods the interview
    code relies on: `strip`, `lower`, `split(sep)`, `split()`, `startswith`, `in`
    and `", ".join`. Character classes are the ASCII part of Python's
    (Unicode whitespace, case mapping and digits beyond ASCII are not modelled). */
module Text {

  /** A character Python's `str.isspace` (and so `strip`, `split()` and the
      regex class `\s`) treats as whitespace, restricted to ASCII. */
  predicate IsSpace(c: char) {
    c == ' ' || '\t' <= c <= '\r' || '\U{001C}' <= c <= '\U{001F}'
  }

  predicate IsUpper(c: char) { 'A' <= c <= 'Z' }

  predicate AllSpace(s: string) {
    forall i :: 0 <= i < |s| ==> IsSpace(s[i])
  }

  /** No whitespace at either end: what `strip()` leaves. */
  predicate IsStripped(s: string) {
    s == [] || (!IsSpace(s[0]) && !IsSpace(s[|s| - 1]))
  }

  predicate NoUpper(s: string) {
    forall i :: 0 <= i < |s| ==> !IsUpper(s[i])
  }

  predicate StartsWith(s: string, prefix: string) {
    |prefix| <= |s| && s[..|prefix|] == prefix
  }

  /** Python's `sub in s`. */
  predicate Contains(s: string, sub: string) {
    exists i :: 0 <= i <= |s| - |sub| && OccursAt(s, sub, i)
  }

  predicate OccursAt(s: string, sub: string, i: int)
    requires 0 <= i <= |s| - |sub|
  {
    s[i..i + |sub|] == sub
  }

  /** The number of whitespace characters `s` starts with. */
  function LeadingSpaces(s: string): (n: nat)
    ensures n <= |s|
    ensures forall i :: 0 <= i < n ==> IsSpace(s[i])
    ensures n < |s| ==> !IsSpace(s[n])
  {
    if s != [] && IsSpace(s[0]) then 1 + LeadingSpaces(s[1..]) else 0
  }

  /** Where the whitespace `s` ends with begins. */
  function TrailingStart(s: string): (n: nat)
    ensures n <= |s|
    ensures forall i :: n <= i < |s| ==> IsSpace(s[i])
    ensures 0 < n ==> !IsSpace(s[n - 1])
  {
    if s != [] && IsSpace(s[|s| - 1]) then TrailingStart(s[..|s| - 1]) else |s|
  }

  /** Python's `s.lstrip()`. */
  function TrimLeft(s: string): (r: string)
    ensures |r| <= |s| && r == s[|s| - |r|..]
    ensures r == [] || !IsSpace(r[0])
    ensures forall i :: 0 <= i < |s| - |r| ==> IsSpace(s[i])
  {
    s[LeadingSpaces(s)..]
  }

  /** Python's `s.strip()`: the part between the leading and the trailing
      whitespace. By the contract, `s` is `LeadingSpaces(s)` whitespace
      characters, then `r`, then only whitespace, and `r` neither starts nor
      ends with whitespace. */
  function Strip(s: string): (r: string)
    ensures IsStripped(r)
    ensures |r| <= |s|
    ensures r == [] <==> AllSpace(s)
    ensures var a := LeadingSpaces(s); a + |r| <= |s| && r == s[a..a + |r|] && AllSpace(s[a + |r|..])
  {
    var a := LeadingSpaces(s);
    if a == |s| then []
    else
      var b := TrailingStart(s);
      assert a < b by { assert !IsSpace(s[a]); }
      s[a..b]
  }

  /** Stripping text that has no whitespace at its ends changes nothing, so
      `strip` is idempotent. */
  lemma StripStripped(s: string)
    requires IsStripped(s)
    ensures Strip(s) == s
  {
    if s != [] {
      assert LeadingSpaces(s) == 0;
      assert TrailingStart(s) == |s|;
    }
  }

  /** ASCII `A`..`Z` become `a`..`z`; every other character is kept. */
  function LowerChar(c: char): (d: char)
    ensures !IsUpper(d)
    ensures IsSpace(d) <==> IsSpace(c)
    ensures IsUpper(c) ==> d as int == c as int + 32
    ensures !IsUpper(c) ==> d == c
  {
    if IsUpper(c) then (c as int + 32) as char else c
  }

  /** Python's `s.lower()` on ASCII letters. */
  function Lower(s: string): (r: string)
    ensures |r| == |s| && NoUpper(r)
    ensures forall i :: 0 <= i < |s| ==> r[i] == LowerChar(s[i])
  {
    seq(|s|, i requires 0 <= i < |s| => LowerChar(s[i]))
  }

  /** Python's `s.split(sep)` for a one-character separator: always at least one
      piece, and an empty piece between adjacent separators. */
  function Split(s: string, sep: char): (pieces: seq<string>)
    ensures |pieces| >= 1
    ensures forall i :: 0 <= i < |pieces| ==> sep !in pieces[i]
  {
    if s == [] then [""]
    else
      var rest := Split(s[1..], sep);
      if s[0] == sep then [""] + rest
      else [[s[0]] + rest[0]] + rest[1..]
  }

  /** Python's `sep.join(parts)`. */
  function Join(parts: seq<string>, sep: string): string
  {
    if parts == [] then ""
    else if |parts| == 1 then parts[0]
    else parts[0] + sep + Join(parts[1..], sep)
  }

  /** Joining the pieces of `Split` with the separator gives the text back. */
  lemma {:induction false} SplitJoin(s: string, sep: char)
    ensures Join(Split(s, sep), [sep]) == s
  {
    if s != [] {
      var rest := Split(s[1..], sep);
      SplitJoin(s[1..], sep);
      if s[0] == sep {
        assert Split(s, sep) == [""] + rest;
        assert ([""] + rest)[1..] == rest;
      } else {
        var p := Split(s, sep);
        assert p == [[s[0]] + rest[0]] + rest[1..];
        if |rest| == 1 {
          assert Join(rest, [sep]) == rest[0];
          assert p[0] == s;
        } else {
          assert p[1..] == rest[1..];
          assert Join(rest, [sep]) == rest[0] + [sep] + Join(rest[1..], [sep]);
          assert s == [s[0]] + s[1..];
        }
      }
    }
  }

  /** Without a separator in the text, splitting yields the whole text. */
  lemma {:induction false} SplitWithoutSeparator(s: string, sep: char)
    requires sep !in s
    ensures Split(s, sep) == [s]
  {
    if s != [] {
      SplitWithoutSeparator(s[1..], sep);
      assert [s[0]] + s[1..] == s;
    }
  }

  /** `b in a + b + c` holds for every `a`, `c`. */
  lemma ContainsInfix(a: string, b: string, c: string)
    ensures Contains(a + b + c, b)
  {
    var s := a + b + c;
    assert s[|a|..|a| + |b|] == b;
    assert OccursAt(s, b, |a|);
  }

  /** The first whitespace-free run of `s`; `s` must not start with whitespace. */
  function TakeWord(s: string): (w: string)
    ensures |w| <= |s| && w == s[..|w|]
    ensures forall i :: 0 <= i < |w| ==> !IsSpace(w[i])
    ensures s != [] && !IsSpace(s[0]) ==> w != []
    ensures |w| == |s| || IsSpace(s[|w|])
  {
    if s == [] || IsSpace(s[0]) then "" else [s[0]] + TakeWord(s[1..])
  }

  /** A non-empty run without whitespace. */
  predicate IsWord(w: string) {
    w != [] && forall j :: 0 <= j < |w| ==> !IsSpace(w[j])
  }

  /** Python's `s.split()`: the maximal whitespace-free runs, in order. */
  function Words(s: string): (ws: seq<string>)
    ensures forall w :: w in ws ==> IsWord(w)
    ensures ws == [] <==> AllSpace(s)
    decreases |s|
  {
    var t := TrimLeft(s);
    if t == [] then
      assert AllSpace(s) by { assert s[..|s|] == s; }
      []
    else
      var w := TakeWord(t);
      assert !AllSpace(s) by { assert s[|s| - |t|] == t[0]; }
      [w] + Words(t[|w|..])
  }

  /** `gaps[0] + ws[0] + gaps[1] + ... + ws[n - 1] + gaps[n]`. */
  function Interleave(gaps: seq<string>, ws: seq<string>): string
    requires |gaps| == |ws| + 1
    decreases |ws|
  {
    if ws == [] then gaps[0] else gaps[0] + ws[0] + Interleave(gaps[1..], ws[1..])
  }

  /** `s` cut into words separated by whitespace gaps: every gap is
      whitespace, every gap between two words is non-empty, and every word
      is a non-empty run without whitespace. */
  predicate IsWordSplit(s: string, gaps: seq<string>, ws: seq<string>) {
    && |gaps| == |ws| + 1
    && (forall i :: 0 <= i < |gaps| ==> AllSpace(gaps[i]))
    && (forall i :: 0 < i < |ws| ==> gaps[i] != [])
    && (forall i :: 0 <= i < |ws| ==> IsWord(ws[i]))
    && s == Interleave(gaps, ws)
  }

  /** The pieces of `Words(s)` are the maximal whitespace-free runs of `s`,
      in order: `s` is those words with whitespace between them. */
  lemma WordsSplit(s: string)
    ensures exists gaps :: IsWordSplit(s, gaps, Words(s))
  {
    var gaps := WordsGaps(s);
  }

  /** The whitespace gaps around the words of `s`. */
  lemma {:induction false} WordsGaps(s: string) returns (gaps: seq<string>)
    ensures IsWordSplit(s, gaps, Words(s))
    decreases |s|
  {
    var t := TrimLeft(s);
    var lead := s[..|s| - |t|];
    if t == [] {
      assert AllSpace(s);
      assert Words(s) == [];
      assert Interleave([s], []) == s;
      gaps := [s];
    } else {
      var w := TakeWord(t);
      var rest := t[|w|..];
      assert t == w + rest by { assert w == t[..|w|]; }
      assert s == lead + (w + rest) by { assert s == lead + t; }
      assert w != [] && |rest| < |s|;
      var ws := Words(rest);
      assert Words(s) == [w] + ws;
      var gaps' := WordsGaps(rest);
      ConsSplit(s, lead, w, rest, gaps', ws);
      gaps := [lead] + gaps';
    }
  }

  /** A gap and a word in front of a cut that starts with whitespace (or is
      empty) extend it to a cut of the whole. */
  lemma ConsSplit(s: string, lead: string, w: string, rest: string, gaps: seq<string>, ws: seq<string>)
    requires s == lead + (w + rest)
    requires AllSpace(lead) && IsWord(w) && IsWordSplit(rest, gaps, ws)
    requires rest == [] || IsSpace(rest[0])
    ensures IsWordSplit(s, [lead] + gaps, [w] + ws)
  {
    var gs, xs := [lead] + gaps, [w] + ws;
    assert gs[1..] == gaps && xs[1..] == ws;
    assert Interleave(gs, xs) == lead + w + rest;
    if ws != [] && gaps[0] == [] {
      assert false;
    }
  }

  /** Whitespace in front of text that does not start with whitespace is what `lstrip` removes. */
  lemma {:induction false} TrimLeftSpaces(g: string, x: string)
    requires AllSpace(g) && (x == [] || !IsSpace(x[0]))
    ensures TrimLeft(g + x) == x
    decreases |g|
  {
    if g != [] {
      TrimLeftSpaces(g[1..], x);
      assert (g + x)[1..] == g[1..] + x;
    }
  }

  /** A whitespace-free run followed by whitespace or the end is the first word. */
  lemma {:induction false} TakeWordOf(w: string, x: string)
    requires forall j :: 0 <= j < |w| ==> !IsSpace(w[j])
    requires x == [] || IsSpace(x[0])
    ensures TakeWord(w + x) == w
    decreases |w|
  {
    if w != [] {
      var wx := w + x;
      assert wx[0] == w[0];
      assert wx[1..] == w[1..] + x by {
        assert |wx[1..]| == |w[1..] + x|;
        forall k | 0 <= k < |wx[1..]|
          ensures wx[1..][k] == (w[1..] + x)[k]
        {
          assert wx[1..][k] == wx[k + 1];
        }
      }
      TakeWordOf(w[1..], x);
      assert w == [w[0]] + w[1..];
    }
  }

  /** Conversely, any such cut of `s` is the one `Words` makes: the words of
      `s` are determined by `s`. */
  lemma {:induction false} WordsOfSplit(s: string, gaps: seq<string>, ws: seq<string>)
    requires IsWordSplit(s, gaps, ws)
    ensures Words(s) == ws
    decreases |ws|
  {
    if ws == [] {
      assert AllSpace(s);
    } else {
      var rest := Interleave(gaps[1..], ws[1..]);
      SplitTail(s, gaps, ws);
      var t := ws[0] + rest;
      TrimLeftSpaces(gaps[0], t);
      TakeWordOf(ws[0], rest);
      assert t[|ws[0]|..] == rest;
      WordsOfSplit(rest, gaps[1..], ws[1..]);
      assert Words(s) == [ws[0]] + Words(rest);
    }
  }

  /** Past the first gap and word, the rest of a cut is again a cut, and it
      starts with whitespace unless it is empty. */
  lemma SplitTail(s: string, gaps: seq<string>, ws: seq<string>)
    requires IsWordSplit(s, gaps, ws) && ws != []
    ensures var rest := Interleave(gaps[1..], ws[1..]);
            && s == gaps[0] + (ws[0] + rest)
            && IsWordSplit(rest, gaps[1..], ws[1..])
            && (rest == [] || IsSpace(rest[0]))
            && IsWord(ws[0]) && AllSpace(gaps[0])
  {
    var rest := Interleave(gaps[1..], ws[1..]);
    assert AllSpace(gaps[1]);
    if ws[1..] != [] {
      assert gaps[1] != [];
      assert rest == gaps[1] + ws[1] + Interleave(gaps[1..][1..], ws[1..][1..]);
      assert rest[0] == gaps[1][0];
    }
    assert IsWord(ws[0]);
  }
}
