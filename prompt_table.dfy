/**
 * The table `CHANNEL_PROMPTS`, loaded on its first use in the thread scan:
 * the text of `bots.txt`, one pair of channel ids per line, read into a map
 * from a chat channel (the parent of managed threads) to the channel whose
 * latest message is that chat's prompt.
 */
module PromptTable {
  import opened Types
  import opened Text

  type Table = map<ChannelId, ChannelId>

  type Pair = (ChannelId, ChannelId)

  /** Why one line failed; a failure stops the whole load. */
  datatype LineError = MissingChatId | BadChatId | MissingPromptId | BadPromptId

  type LineResult = Result<Pair, LineError>

  /** A failure of the load: the zero-based line at which it stopped, and why. */
  datatype TableError = TableError(line: nat, kind: LineError)

  /**
   * One line: the first token is the chat channel, the second the prompt
   * channel, checked in the order the loader unwraps them; tokens after
   * the second are never looked at.
   */
  function ParseLine(line: string): LineResult
  {
    var ws := Words(line);
    if |ws| == 0 then Err(MissingChatId)
    else match ParseU64(ws[0])
      case None => Err(BadChatId)
      case Some(chat) =>
        if |ws| == 1 then Err(MissingPromptId)
        else match ParseU64(ws[1])
          case None => Err(BadPromptId)
          case Some(prompt) => Ok((chat, prompt))
  }

  /**
   * How a line's tokens decide its parse: no token, a first token that is
   * not a u64, a single token, a second token that is not a u64, or two
   * u64 tokens giving the pair.
   */
  lemma ParseLineCases(line: string)
    ensures var ws := Words(line);
      && (ParseLine(line) == Err(MissingChatId) <==> |ws| == 0)
      && (ParseLine(line) == Err(BadChatId) <==> |ws| >= 1 && ParseU64(ws[0]).None?)
      && (ParseLine(line) == Err(MissingPromptId) <==> |ws| == 1 && ParseU64(ws[0]).Some?)
      && (ParseLine(line) == Err(BadPromptId) <==> |ws| >= 2 && ParseU64(ws[0]).Some? && ParseU64(ws[1]).None?)
      && (ParseLine(line).Ok? <==> |ws| >= 2 && ParseU64(ws[0]).Some? && ParseU64(ws[1]).Some?)
      && (ParseLine(line).Ok? ==> ParseLine(line).value == (ParseU64(ws[0]).value, ParseU64(ws[1]).value))
  {
  }

  /** Tokens after the second are never looked at: a line parses as its first two tokens alone do. */
  lemma ExtraTokensIgnored(line: string)
    requires |Words(line)| >= 2
    ensures ParseLine(line) == ParseLine(Unwords(Words(line)[..2]))
  {
    var ws := Words(line)[..2];
    assert forall i :: 0 <= i < |ws| ==> IsWord(ws[i]);
    WordsUnwords(ws);
  }

  /** A line with no token, such as an empty line, fails the load instead of being skipped. */
  lemma BlankLineFails(line: string)
    requires IsBlank(line)
    ensures ParseLine(line) == Err(MissingChatId)
  {
    BlankWords(line);
  }

  /**
   * A line holding one u64 token, with any whitespace around it, fails for
   * the missing prompt id.
   */
  lemma SingleTokenFails(before: string, token: string, after: string)
    requires IsBlank(before) && IsBlank(after) && IsWord(token)
    requires ParseU64(token).Some?
    ensures ParseLine(before + token + after) == Err(MissingPromptId)
  {
    assert Separators([before, after], 1);
    WordsInterleave([before, after], [token]);
    assert Interleave([before, after], [token]) == before + token + after;
  }

  /** Each line parsed on its own. */
  function ParseEach(ls: seq<string>): (rs: seq<LineResult>)
    ensures |rs| == |ls|
  {
    seq(|ls|, i requires 0 <= i < |ls| => ParseLine(ls[i]))
  }

  /** The parsed lines inserted one after another into an empty map, stopping at the first bad one. */
  function Insert(rs: seq<LineResult>): Result<Table, TableError>
    decreases |rs|
  {
    if rs == [] then Ok(map[])
    else match Insert(rs[..|rs| - 1])
      case Err(e) => Err(e)
      case Ok(m) =>
        match rs[|rs| - 1]
        case Err(k) => Err(TableError(|rs| - 1, k))
        case Ok(pair) => Ok(m[pair.0 := pair.1])
  }

  /** The table a file's text loads to. */
  function ParseTable(text: string): Result<Table, TableError>
  {
    Insert(ParseEach(Lines(text)))
  }

  /** The loader: a loop over the lines inserting each pair into a mutable map. */
  method LoadTable(text: string) returns (r: Result<Table, TableError>)
    ensures r == ParseTable(text)
  {
    var lines := Lines(text);
    ghost var rs := ParseEach(lines);
    var m: Table := map[];
    var i := 0;
    while i < |lines|
      invariant 0 <= i <= |lines|
      invariant Insert(rs[..i]) == Ok(m)
    {
      assert rs[..i + 1][..i] == rs[..i];
      var parsed := ParseLine(lines[i]);
      assert rs[i] == parsed;
      if parsed.Err? {
        FailureStops(rs, i + 1);
        return Err(TableError(i, parsed.error));
      }
      m := m[parsed.value.0 := parsed.value.1];
      i := i + 1;
    }
    assert rs[..i] == rs;
    r := Ok(m);
  }

  /** Once a prefix of the lines fails, the whole load fails with the same error. */
  lemma {:induction false} FailureStops(rs: seq<LineResult>, n: nat)
    requires n <= |rs|
    requires Insert(rs[..n]).Err?
    ensures Insert(rs) == Insert(rs[..n])
    decreases |rs| - n
  {
    if n == |rs| {
      assert rs[..n] == rs;
    } else {
      assert rs[..|rs| - 1][..n] == rs[..n];
      FailureStops(rs[..|rs| - 1], n);
    }
  }

  /**
   * The load fails exactly when some line fails; the error names the first
   * failing line and that line's own reason.
   */
  lemma {:induction false} InsertErrors(rs: seq<LineResult>)
    ensures Insert(rs).Ok? <==> forall i :: 0 <= i < |rs| ==> rs[i].Ok?
    ensures Insert(rs).Err? ==>
      var e := Insert(rs).error;
      && e.line < |rs|
      && rs[e.line] == Err(e.kind)
      && forall j :: 0 <= j < e.line ==> rs[j].Ok?
    decreases |rs|
  {
    if rs != [] {
      var init := rs[..|rs| - 1];
      InsertErrors(init);
      assert forall i :: 0 <= i < |init| ==> init[i] == rs[i];
    }
  }

  /** The pairs of parsed lines that all succeeded, in order. */
  function PairsOf(rs: seq<LineResult>): (es: seq<Pair>)
    requires forall i :: 0 <= i < |rs| ==> rs[i].Ok?
    ensures |es| == |rs|
    ensures forall i :: 0 <= i < |rs| ==> rs[i] == Ok(es[i])
  {
    seq(|rs|, i requires 0 <= i < |rs| => rs[i].value)
  }

  /** The map a list of pairs denotes when a later pair for the same chat overrides an earlier one. */
  function MapOf(es: seq<Pair>): Table
    decreases |es|
  {
    if es == [] then map[] else MapOf(es[..|es| - 1])[es[|es| - 1].0 := es[|es| - 1].1]
  }

  /** When every line parses, the load is the map of the lines' pairs. */
  lemma {:induction false} InsertMap(rs: seq<LineResult>)
    requires forall i :: 0 <= i < |rs| ==> rs[i].Ok?
    ensures Insert(rs) == Ok(MapOf(PairsOf(rs)))
    decreases |rs|
  {
    if rs != [] {
      var n := |rs| - 1;
      var init := rs[..n];
      assert forall i :: 0 <= i < n ==> init[i] == rs[i];
      InsertMap(init);
      assert PairsOf(rs)[..n] == PairsOf(init);
    }
  }

  /** The keys of the map are exactly the chat ids some pair names. */
  lemma {:induction false} MapOfKeys(es: seq<Pair>)
    ensures forall c :: c in MapOf(es) <==> exists i :: 0 <= i < |es| && es[i].0 == c
    decreases |es|
  {
    if es != [] {
      var n := |es| - 1;
      var init := es[..n];
      MapOfKeys(init);
      assert MapOf(es) == MapOf(init)[es[n].0 := es[n].1];
      forall c
        ensures c in MapOf(es) <==> exists i :: 0 <= i < |es| && es[i].0 == c
      {
        if c in MapOf(es) && c != es[n].0 {
          var i :| 0 <= i < n && init[i].0 == c;
          assert es[i].0 == c;
        }
        if exists i :: 0 <= i < |es| && es[i].0 == c {
          var i :| 0 <= i < |es| && es[i].0 == c;
          if i < n { assert init[i].0 == c; }
        }
      }
    }
  }

  /** A chat id maps to the prompt id of the last pair that names it. */
  lemma {:induction false} MapOfLast(es: seq<Pair>, i: nat)
    requires i < |es|
    requires forall j :: i < j < |es| ==> es[j].0 != es[i].0
    ensures es[i].0 in MapOf(es) && MapOf(es)[es[i].0] == es[i].1
    decreases |es|
  {
    var n := |es| - 1;
    if i < n {
      var init := es[..n];
      MapOfLast(init, i);
    }
  }

  /**
   * A successful load: every line parsed, and the map is that of the
   * lines' pairs in file order (so `MapOfKeys` and `MapOfLast` describe it).
   */
  lemma TableContents(text: string, m: Table)
    requires ParseTable(text) == Ok(m)
    ensures forall i :: 0 <= i < |Lines(text)| ==> ParseLine(Lines(text)[i]).Ok?
    ensures m == MapOf(PairsOf(ParseEach(Lines(text))))
  {
    var rs := ParseEach(Lines(text));
    InsertErrors(rs);
    InsertMap(rs);
    assert forall i :: 0 <= i < |rs| ==> rs[i] == ParseLine(Lines(text)[i]);
  }

  /** A failed load: the error is the first line that does not parse, with its reason. */
  lemma TableFailure(text: string, e: TableError)
    requires ParseTable(text) == Err(e)
    ensures e.line < |Lines(text)|
    ensures ParseLine(Lines(text)[e.line]) == Err(e.kind)
    ensures forall j :: 0 <= j < e.line ==> ParseLine(Lines(text)[j]).Ok?
  {
    var rs := ParseEach(Lines(text));
    InsertErrors(rs);
    assert forall i :: 0 <= i < |rs| ==> rs[i] == ParseLine(Lines(text)[i]);
  }

  // ------------------------------------------------------ round trip

  /** The line a table entry is written as. */
  function FormatLine(chat: ChannelId, prompt: ChannelId): string
  {
    Decimal(chat) + " " + Decimal(prompt)
  }

  function FormatLines(es: seq<Pair>): (ls: seq<string>)
    ensures |ls| == |es|
  {
    seq(|es|, i requires 0 <= i < |es| => FormatLine(es[i].0, es[i].1))
  }

  /** The text of a `bots.txt` that lists the given entries in order. */
  function FormatTable(es: seq<Pair>): string
  {
    Unlines(FormatLines(es))
  }

  lemma DecimalIsWord(n: nat)
    ensures IsWord(Decimal(n)) && '\n' !in Decimal(n)
  {
    var a := Decimal(n);
    forall j | 0 <= j < |a| ensures !IsWhitespace(a[j]) && a[j] != '\n' { assert IsDigit(a[j]); }
  }

  lemma WordsOfFormatLine(chat: ChannelId, prompt: ChannelId)
    ensures Words(FormatLine(chat, prompt)) == [Decimal(chat), Decimal(prompt)]
  {
    DecimalIsWord(chat);
    DecimalIsWord(prompt);
    assert Unwords([Decimal(chat), Decimal(prompt)]) == FormatLine(chat, prompt);
    WordsUnwords([Decimal(chat), Decimal(prompt)]);
  }

  lemma ParseFormatLine(chat: ChannelId, prompt: ChannelId)
    ensures ParseLine(FormatLine(chat, prompt)) == Ok((chat, prompt))
  {
    WordsOfFormatLine(chat, prompt);
    ParseU64Decimal(chat);
    ParseU64Decimal(prompt);
  }

  lemma FormatLineOneLine(chat: ChannelId, prompt: ChannelId)
    ensures '\n' !in FormatLine(chat, prompt)
  {
    DecimalIsWord(chat);
    DecimalIsWord(prompt);
  }

  /** Loading the text written from a list of entries gives the map those entries denote. */
  lemma LoadFormattedTable(es: seq<Pair>)
    ensures ParseTable(FormatTable(es)) == Ok(MapOf(es))
  {
    var ls := FormatLines(es);
    forall i | 0 <= i < |ls| ensures '\n' !in ls[i] {
      FormatLineOneLine(es[i].0, es[i].1);
    }
    LinesUnlines(ls);
    var rs := ParseEach(ls);
    forall i | 0 <= i < |rs| ensures rs[i] == Ok(es[i]) {
      ParseFormatLine(es[i].0, es[i].1);
    }
    InsertMap(rs);
    assert PairsOf(rs) == es;
  }
}
