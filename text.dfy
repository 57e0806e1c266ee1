/**
 * The three pieces of Rust's string library the prompt table relies on:
 * `str::lines`, `str::split_whitespace` and `u64::from_str`.
 */
module Text {
  import opened Types

  // ---------------------------------------------------------------- lines

  /** Index of the first line feed of `s`, or `|s|` when there is none. */
  function LineEnd(s: string): (k: nat)
    ensures k <= |s|
    ensures forall j :: 0 <= j < k ==> s[j] != '\n'
    ensures k < |s| ==> s[k] == '\n'
  {
    if s == [] || s[0] == '\n' then 0 else 1 + LineEnd(s[1..])
  }

  /**
   * `str::lines`: the pieces between line feeds, where a final line feed
   * does not open an empty last line. (Rust also drops a carriage return
   * before the line feed; every consumer here splits on whitespace, which
   * includes the carriage return, so it is kept.)
   */
  function Lines(s: string): (ls: seq<string>)
    ensures forall i :: 0 <= i < |ls| ==> '\n' !in ls[i]
    ensures s == [] <==> ls == []
    decreases |s|
  {
    if s == [] then []
    else
      var k := LineEnd(s);
      [s[..k]] + (if k == |s| then [] else Lines(s[k + 1..]))
  }

  /** Each line followed by a line feed: the text `Lines` splits. */
  function Unlines(ls: seq<string>): string
  {
    if ls == [] then [] else ls[0] + "\n" + Unlines(ls[1..])
  }

  /** `s` with a line feed added unless it is empty or already ends with one. */
  function Terminated(s: string): string
  {
    if s == [] || s[|s| - 1] == '\n' then s else s + "\n"
  }

  lemma TerminatedAfterLine(line: string, rest: string)
    ensures line + "\n" + Terminated(rest) == Terminated(line + "\n" + rest)
  {
    var s := line + "\n" + rest;
    if rest == [] {
      assert s == line + "\n" && s[|s| - 1] == '\n';
    } else {
      assert s[|s| - 1] == rest[|rest| - 1];
      if rest[|rest| - 1] != '\n' {
        assert line + "\n" + (rest + "\n") == s + "\n";
      }
    }
  }

  /** Splitting and rejoining gives the text back, with a line feed added when it had none at the end. */
  lemma {:induction false} UnlinesLines(s: string)
    ensures Unlines(Lines(s)) == Terminated(s)
    decreases |s|
  {
    if s != [] {
      var k := LineEnd(s);
      var line := s[..k];
      if k == |s| {
        assert line == s;
        assert Unlines(Lines(s)) == s + "\n";
      } else {
        var rest := s[k + 1..];
        assert s == line + "\n" + rest;
        assert Unlines(Lines(s)) == line + "\n" + Unlines(Lines(rest));
        UnlinesLines(rest);
        TerminatedAfterLine(line, rest);
      }
    }
  }

  lemma LineEndAt(a: string, b: string)
    requires '\n' !in a
    ensures LineEnd(a + "\n" + b) == |a|
  {
    var s := a + "\n" + b;
    assert forall j :: 0 <= j < |a| ==> s[j] == a[j];
    assert s[|a|] == '\n';
  }

  /** Joining lines free of line feeds and splitting again gives the same lines. */
  lemma {:induction false} LinesUnlines(ls: seq<string>)
    requires forall i :: 0 <= i < |ls| ==> '\n' !in ls[i]
    ensures Lines(Unlines(ls)) == ls
  {
    if ls != [] {
      var s := Unlines(ls);
      var rest := Unlines(ls[1..]);
      assert s == ls[0] + "\n" + rest;
      LineEndAt(ls[0], rest);
      assert s[..|ls[0]|] == ls[0];
      assert s[|ls[0]| + 1..] == rest;
      LinesUnlines(ls[1..]);
      assert ls == [ls[0]] + ls[1..];
    }
  }

  // ---------------------------------------------------------------- words

  /** Rust's `char::is_whitespace`: the Unicode White_Space property. */
  predicate IsWhitespace(c: char)
  {
    || ('\t' <= c <= '\r')
    || c == ' '
    || c == '\U{0085}'
    || c == '\U{00A0}'
    || c == '\U{1680}'
    || ('\U{2000}' <= c <= '\U{200A}')
    || c == '\U{2028}'
    || c == '\U{2029}'
    || c == '\U{202F}'
    || c == '\U{205F}'
    || c == '\U{3000}'
  }

  /** A token of `split_whitespace`: non-empty and free of whitespace. */
  predicate IsWord(w: string)
  {
    |w| > 0 && forall j :: 0 <= j < |w| ==> !IsWhitespace(w[j])
  }

  /** Index of the first whitespace character of `s`, or `|s|`. */
  function WordEnd(s: string): (k: nat)
    ensures k <= |s|
    ensures forall j :: 0 <= j < k ==> !IsWhitespace(s[j])
    ensures k < |s| ==> IsWhitespace(s[k])
  {
    if s == [] || IsWhitespace(s[0]) then 0 else 1 + WordEnd(s[1..])
  }

  /** `str::split_whitespace`: the maximal runs of non-whitespace characters, in order. */
  function Words(s: string): (ws: seq<string>)
    ensures forall i :: 0 <= i < |ws| ==> IsWord(ws[i])
    decreases |s|
  {
    if s == [] then []
    else if IsWhitespace(s[0]) then Words(s[1..])
    else
      var k := WordEnd(s);
      [s[..k]] + Words(s[k..])
  }

  /** Words joined by single spaces. */
  function Unwords(ws: seq<string>): string
  {
    if ws == [] then []
    else if |ws| == 1 then ws[0]
    else ws[0] + " " + Unwords(ws[1..])
  }

  lemma WordEndAt(w: string, t: string)
    requires IsWord(w)
    requires t == [] || IsWhitespace(t[0])
    ensures WordEnd(w + t) == |w|
  {
    var s := w + t;
    assert forall j :: 0 <= j < |w| ==> s[j] == w[j];
    if |w| < |s| {
      assert s[|w|] == t[0];
    }
  }

  /** Joining words by spaces and splitting again gives the same words. */
  lemma {:induction false} WordsUnwords(ws: seq<string>)
    requires forall i :: 0 <= i < |ws| ==> IsWord(ws[i])
    ensures Words(Unwords(ws)) == ws
  {
    if ws != [] {
      var w := ws[0];
      var t := if |ws| == 1 then [] else " " + Unwords(ws[1..]);
      var s := w + t;
      assert Unwords(ws) == s;
      WordEndAt(w, t);
      assert !IsWhitespace(s[0]) by { assert s[0] == w[0]; }
      assert s[..|w|] == w;
      assert s[|w|..] == t;
      if |ws| == 1 {
        assert Words(s) == [w] + Words([]);
      } else {
        var rest := Unwords(ws[1..]);
        assert t[1..] == rest;
        WordsUnwords(ws[1..]);
        assert Words(t) == Words(rest);
        assert ws == [w] + ws[1..];
      }
    }
  }

  /** A separator between tokens: whitespace only (possibly empty). */
  predicate IsBlank(g: string)
  {
    forall j :: 0 <= j < |g| ==> IsWhitespace(g[j])
  }

  /**
   * Separators for `n` tokens: `n + 1` blank strings, every inner one
   * non-empty (the first and the last may be empty).
   */
  predicate Separators(gs: seq<string>, n: nat)
  {
    && |gs| == n + 1
    && (forall i :: 0 <= i < |gs| ==> IsBlank(gs[i]))
    && (forall i :: 0 < i < n ==> gs[i] != [])
  }

  /** `gs[0] + ws[0] + gs[1] + ... + ws[n-1] + gs[n]`. */
  function Interleave(gs: seq<string>, ws: seq<string>): string
    requires |gs| == |ws| + 1
  {
    if ws == [] then gs[0] else gs[0] + ws[0] + Interleave(gs[1..], ws[1..])
  }

  lemma {:induction false} BlankWords(s: string)
    requires IsBlank(s)
    ensures Words(s) == []
    decreases |s|
  {
    if s != [] {
      BlankWords(s[1..]);
    }
  }

  /** Growing the first separator by one whitespace character keeps the separators valid. */
  lemma GrowFirstGap(c: char, gs: seq<string>, n: nat)
    requires IsWhitespace(c) && Separators(gs, n)
    ensures Separators([[c] + gs[0]] + gs[1..], n)
  {
    var g0 := [c] + gs[0];
    var gs' := [g0] + gs[1..];
    assert IsBlank(g0) by {
      forall j | 0 <= j < |g0|
        ensures IsWhitespace(g0[j])
      {
        if j > 0 {
          assert g0[j] == gs[0][j - 1];
        }
      }
    }
    assert forall i :: 0 < i < |gs'| ==> gs'[i] == gs[i];
  }

  /** ... and prefixes the layout with that character. */
  lemma GrowFirstGapLayout(c: char, gs: seq<string>, ws: seq<string>)
    requires |gs| == |ws| + 1
    ensures Interleave([[c] + gs[0]] + gs[1..], ws) == [c] + Interleave(gs, ws)
  {
    var g0 := [c] + gs[0];
    var gs' := [g0] + gs[1..];
    assert gs'[0] == g0 && gs'[1..] == gs[1..];
    if ws != [] {
      var rest := ws[0] + Interleave(gs[1..], ws[1..]);
      assert Interleave(gs', ws) == g0 + rest;
      assert Interleave(gs, ws) == gs[0] + rest;
    }
  }

  /** A token in front of a layout whose first separator is non-empty (or which is empty) extends it. */
  lemma PrependWord(gs: seq<string>, n: nat)
    requires Separators(gs, n) && (n > 0 ==> gs[0] != [])
    ensures Separators([[]] + gs, n + 1)
  {
    var gs' := [[]] + gs;
    assert forall i :: 0 < i < |gs'| ==> gs'[i] == gs[i - 1];
  }

  /** ... and prefixes the layout with that token. */
  lemma PrependWordLayout(w: string, gs: seq<string>, ws: seq<string>)
    requires |gs| == |ws| + 1
    ensures Interleave([[]] + gs, [w] + ws) == w + Interleave(gs, ws)
  {
    var gs' := [[]] + gs;
    var ws' := [w] + ws;
    assert gs'[0] == [] && ws'[0] == w;
    assert gs'[1..] == gs && ws'[1..] == ws;
    assert Interleave(gs', ws') == [] + w + Interleave(gs, ws);
  }

  /** The whitespace runs around and between the tokens of `s`. */
  function Gaps(s: string): (gs: seq<string>)
    ensures Separators(gs, |Words(s)|)
    ensures s != [] && IsWhitespace(s[0]) ==> gs[0] != []
    ensures s == Interleave(gs, Words(s))
    decreases |s|
  {
    if s == [] then [[]]
    else if IsWhitespace(s[0]) then
      var g := Gaps(s[1..]);
      GrowFirstGap(s[0], g, |Words(s[1..])|);
      GrowFirstGapLayout(s[0], g, Words(s[1..]));
      assert s == [s[0]] + s[1..];
      [[s[0]] + g[0]] + g[1..]
    else
      var k := WordEnd(s);
      var g := Gaps(s[k..]);
      PrependWord(g, |Words(s[k..])|);
      PrependWordLayout(s[..k], g, Words(s[k..]));
      assert Words(s) == [s[..k]] + Words(s[k..]);
      assert s == s[..k] + s[k..];
      [[]] + g
  }

  /**
   * `split_whitespace` finds the maximal non-whitespace runs: every text is
   * its tokens separated by whitespace, with whitespace at the ends.
   */
  lemma WordsDecompose(s: string)
    ensures exists gs :: Separators(gs, |Words(s)|) && s == Interleave(gs, Words(s))
  {
    var gs := Gaps(s);
    assert Separators(gs, |Words(s)|) && s == Interleave(gs, Words(s));
  }

  /** Conversely, tokens laid out with any separators split back into those tokens. */
  lemma {:induction false} WordsInterleave(gs: seq<string>, ws: seq<string>)
    requires Separators(gs, |ws|)
    requires forall i :: 0 <= i < |ws| ==> IsWord(ws[i])
    ensures Words(Interleave(gs, ws)) == ws
    decreases |Interleave(gs, ws)|
  {
    var s := Interleave(gs, ws);
    if ws == [] {
      BlankWords(s);
    } else if gs[0] != [] {
      var gs' := [gs[0][1..]] + gs[1..];
      assert gs'[1..] == gs[1..];
      assert Separators(gs', |ws|) by {
        assert forall i :: 0 < i < |gs'| ==> gs'[i] == gs[i];
      }
      assert Interleave(gs', ws) == gs[0][1..] + ws[0] + Interleave(gs[1..], ws[1..]);
      assert s == [gs[0][0]] + Interleave(gs', ws);
      assert s[1..] == Interleave(gs', ws);
      assert IsWhitespace(s[0]);
      WordsInterleave(gs', ws);
    } else {
      var w := ws[0];
      var t := Interleave(gs[1..], ws[1..]);
      assert s == w + t;
      assert Separators(gs[1..], |ws[1..]|) by {
        assert forall i :: 0 < i < |gs| - 1 ==> gs[1..][i] == gs[i + 1];
      }
      assert t == [] || IsWhitespace(t[0]) by {
        if |ws| > 1 {
          assert gs[1] != [];
          assert t == gs[1] + ws[1] + Interleave(gs[2..], ws[2..]);
          assert t[0] == gs[1][0];
        } else {
          assert t == gs[1];
        }
      }
      WordEndAt(w, t);
      assert !IsWhitespace(s[0]) by { assert s[0] == w[0]; }
      assert s[..|w|] == w;
      assert s[|w|..] == t;
      WordsInterleave(gs[1..], ws[1..]);
      assert ws == [w] + ws[1..];
    }
  }

  // ---------------------------------------------------------------- u64

  predicate IsDigit(c: char)
  {
    '0' <= c <= '9'
  }

  predicate AllDigits(s: string)
  {
    forall i :: 0 <= i < |s| ==> IsDigit(s[i])
  }

  /** The number a string of decimal digits denotes, most significant digit first. */
  function DecimalValue(ds: string): nat
    requires AllDigits(ds)
    decreases |ds|
  {
    if ds == [] then 0
    else 10 * DecimalValue(ds[..|ds| - 1]) + (ds[|ds| - 1] as int - '0' as int)
  }

  /**
   * `u64::from_str`: one optional leading '+', then at least one ASCII digit,
   * with a value that fits in 64 bits. A '-' sign is refused.
   */
  function ParseU64(t: string): (r: Option<U64>)
    ensures r.Some? ==> |t| > 0 && (IsDigit(t[0]) || t[0] == '+')
    ensures r.Some? ==> forall i :: 0 <= i < |t| ==> !IsWhitespace(t[i]) && t[i] != '-'
  {
    var ds := if |t| > 0 && t[0] == '+' then t[1..] else t;
    if |ds| == 0 || !AllDigits(ds) then None
    else
      var v := DecimalValue(ds);
      if v < U64_BOUND then
        assert forall i :: 1 <= i < |t| ==> t[i] == ds[i - (|t| - |ds|)];
        Some(v)
      else None
  }

  function DigitChar(d: nat): (c: char)
    requires d < 10
    ensures IsDigit(c) && c as int - '0' as int == d
  {
    ('0' as int + d) as char
  }

  /** The canonical decimal spelling of `n`: no sign, no leading zeros. */
  function Decimal(n: nat): (s: string)
    ensures |s| > 0 && AllDigits(s)
  {
    if n < 10 then [DigitChar(n)] else Decimal(n / 10) + [DigitChar(n % 10)]
  }

  lemma {:induction false} DecimalValueOfDecimal(n: nat)
    ensures DecimalValue(Decimal(n)) == n
  {
    if n >= 10 {
      var s := Decimal(n);
      assert s[..|s| - 1] == Decimal(n / 10);
      DecimalValueOfDecimal(n / 10);
    }
  }

  /** Every u64 printed in decimal, with or without a '+' in front, parses back to itself. */
  lemma ParseU64Decimal(n: U64)
    ensures ParseU64(Decimal(n)) == Some(n)
    ensures ParseU64("+" + Decimal(n)) == Some(n)
  {
    DecimalValueOfDecimal(n);
    var s := Decimal(n);
    assert s[0] != '+' by { assert IsDigit(s[0]); }
    assert ("+" + s)[1..] == s;
  }

  /** `n` zero digits. */
  function Zeros(n: nat): (z: string)
    ensures |z| == n && AllDigits(z)
    ensures forall i :: 0 <= i < n ==> z[i] == '0'
  {
    if n == 0 then [] else Zeros(n - 1) + "0"
  }

  /** A way of writing `n` that `u64::from_str` accepts: an optional '+', leading zeros, the decimal digits. */
  function Spelling(plus: bool, zeros: nat, n: nat): string
  {
    (if plus then "+" else "") + Zeros(zeros) + Decimal(n)
  }

  lemma {:induction false} ZerosValue(z: nat, ds: string)
    requires AllDigits(ds)
    ensures DecimalValue(Zeros(z) + ds) == DecimalValue(ds)
    decreases |ds|, z
  {
    if ds == [] {
      assert Zeros(z) + ds == Zeros(z);
      if z > 0 {
        assert Zeros(z)[..z - 1] == Zeros(z - 1);
        ZerosValue(z - 1, []);
        assert Zeros(z - 1) + [] == Zeros(z - 1);
      }
    } else {
      var n := |ds| - 1;
      assert (Zeros(z) + ds)[..|Zeros(z) + ds| - 1] == Zeros(z) + ds[..n];
      ZerosValue(z, ds[..n]);
    }
  }

  /** Every non-empty digit string is some leading zeros followed by the decimal spelling of its value. */
  lemma {:induction false} DigitsSpelling(ds: string) returns (z: nat)
    requires |ds| > 0 && AllDigits(ds)
    ensures ds == Zeros(z) + Decimal(DecimalValue(ds))
    decreases |ds|
  {
    var n := |ds| - 1;
    var init := ds[..n];
    var d := ds[n] as int - '0' as int;
    assert ds == init + [ds[n]];
    assert DigitChar(d) == ds[n];
    if n == 0 {
      z := 0;
      assert DecimalValue(ds) == d;
    } else {
      var z0 := DigitsSpelling(init);
      var v := DecimalValue(init);
      assert DecimalValue(ds) == 10 * v + d;
      if v == 0 {
        z := z0 + 1;
        assert Zeros(z) == Zeros(z0) + "0";
      } else {
        z := z0;
        var m := 10 * v + d;
        assert m / 10 == v && m % 10 == d;
        assert Decimal(m) == Decimal(v) + [DigitChar(d)];
      }
    }
  }

  /** An accepted token is a spelling of the value it yields. */
  lemma ParsedIsSpelling(t: string, n: U64) returns (plus: bool, zeros: nat)
    requires ParseU64(t) == Some(n)
    ensures t == Spelling(plus, zeros, n)
  {
    plus := |t| > 0 && t[0] == '+';
    var ds := if plus then t[1..] else t;
    assert |ds| > 0 && AllDigits(ds) && DecimalValue(ds) == n;
    zeros := DigitsSpelling(ds);
    SpellingSplit(plus, zeros, n);
    if plus {
      assert t == "+" + ds;
    }
  }

  lemma DigitsAppend(a: string, b: string)
    requires AllDigits(a) && AllDigits(b)
    ensures AllDigits(a + b)
  {
    assert forall i :: |a| <= i < |a + b| ==> (a + b)[i] == b[i - |a|];
  }

  /** A digit string below 2^64, with or without a '+' in front, is accepted with its value. */
  lemma DigitsParse(ds: string)
    requires |ds| > 0 && AllDigits(ds) && DecimalValue(ds) < U64_BOUND
    ensures ParseU64(ds) == Some(DecimalValue(ds))
    ensures ParseU64("+" + ds) == Some(DecimalValue(ds))
  {
    assert ds[0] != '+' by { assert IsDigit(ds[0]); }
    assert ("+" + ds)[1..] == ds;
  }

  lemma SpellingSplit(plus: bool, zeros: nat, n: nat)
    ensures plus ==> Spelling(plus, zeros, n) == "+" + (Zeros(zeros) + Decimal(n))
    ensures !plus ==> Spelling(plus, zeros, n) == Zeros(zeros) + Decimal(n)
  {
  }

  /** Every spelling of a u64 is accepted with its value. */
  lemma SpellingParses(plus: bool, zeros: nat, n: U64)
    ensures ParseU64(Spelling(plus, zeros, n)) == Some(n)
  {
    var z := Zeros(zeros);
    var d := Decimal(n);
    DigitsAppend(z, d);
    ZerosValue(zeros, d);
    DecimalValueOfDecimal(n);
    DigitsParse(z + d);
    SpellingSplit(plus, zeros, n);
  }

  /** A token with any character other than a digit, apart from one leading '+', is refused. */
  lemma StrayCharacterRefused(t: string, i: nat)
    requires i < |t| && !IsDigit(t[i]) && !(i == 0 && t[0] == '+')
    ensures ParseU64(t) == None
  {
    if |t| > 0 && t[0] == '+' {
      assert t[1..][i - 1] == t[i];
    }
  }

  /**
   * `u64::from_str` accepts exactly an optional '+', any number of leading
   * zeros and the decimal digits of a value below 2^64, and yields that value;
   * everything else (a '-', a stray character, an empty digit string, an
   * overflowing value) is refused.
   */
  lemma ParseU64Exact(t: string, n: U64)
    ensures ParseU64(t) == Some(n) <==> exists plus, zeros :: t == Spelling(plus, zeros, n)
  {
    if ParseU64(t) == Some(n) {
      var plus, zeros := ParsedIsSpelling(t, n);
    }
    if exists plus, zeros :: t == Spelling(plus, zeros, n) {
      var plus, zeros :| t == Spelling(plus, zeros, n);
      SpellingParses(plus, zeros, n);
    }
  }
}
