/**
 A plan's file: the text written for a new plan, and the title and sessions its
 frontmatter is read back as.
 */
module PlanFiles {
  import opened Wrappers
  import opened Text

  datatype Frontmatter = Frontmatter(title: string, sessions: seq<string>)

  const NoFrontmatter := Frontmatter("", [])

  // ----- lines

  /** How many characters come before the first line feed. */
  function FirstBreak(s: string): (n: nat)
    ensures n <= |s| && '\n' !in s[..n] && (n < |s| ==> s[n] == '\n')
  {
    if s == "" || s[0] == '\n' then 0
    else
      assert s[..1 + FirstBreak(s[1..])] == [s[0]] + s[1..][..FirstBreak(s[1..])];
      1 + FirstBreak(s[1..])
  }

  /** A line without the carriage return before its line feed. */
  function Chomped(line: string): string {
    if line != "" && line[|line| - 1] == '\r' then line[..|line| - 1] else line
  }

  function Lines(text: string): seq<string>
    decreases |text|
  {
    if text == "" then []
    else if FirstBreak(text) == |text| then [text]
    else [Chomped(text[..FirstBreak(text)])] + Lines(text[FirstBreak(text) + 1..])
  }

  function WithoutPrefix(s: string, prefix: string): Option<string> {
    if prefix <= s then Some(s[|prefix|..]) else None
  }

  /** What stands between `open` and `close`, when both do. */
  function Between(s: string, open: char, close: char): Option<string> {
    if |s| >= 2 && s[0] == open && s[|s| - 1] == close then Some(s[1..|s| - 1]) else None
  }

  // ----- scalars

  /** Escapes taken out of a double-quoted scalar: a backslash before a quote or a backslash. */
  function Unescaped(s: string): string
    decreases |s|
  {
    if s == "" then ""
    else if s[0] == '\\' && |s| > 1 && s[1] in {'"', '\\'} then [s[1]] + Unescaped(s[2..])
    else [s[0]] + Unescaped(s[1..])
  }

  /** Doubled single quotes made one, from the left. */
  function Singled(s: string): string
    decreases |s|
  {
    if |s| < 2 then s
    else if s[0] == '\'' && s[1] == '\'' then "'" + Singled(s[2..])
    else [s[0]] + Singled(s[1..])
  }

  /** What a frontmatter value says once blanks around it and its quotes are gone. */
  function ScalarOf(value: string): string {
    var trimmed := Trim(value);
    var quoted := Between(trimmed, '"', '"');
    var single := Between(trimmed, '\'', '\'');
    if quoted.Some? then Unescaped(quoted.value)
    else if single.Some? then Singled(single.value)
    else trimmed
  }

  method Scalar(value: string) returns (out: string)
    ensures out == ScalarOf(value)
  {
    hide Trim, Singled, Unescaped;
    var trimmed := Trim(value);
    var quoted := Between(trimmed, '"', '"');
    if quoted.Some? {
      out := Unescape(quoted.value);
      return;
    }
    var single := Between(trimmed, '\'', '\'');
    out := if single.Some? then Singled(single.value) else trimmed;
  }

  method Unescape(inner: string) returns (out: string)
    ensures out == Unescaped(inner)
  {
    hide Unescaped;
    out := "";
    var i := 0;
    while i < |inner|
      invariant i <= |inner| && Unescaped(inner) == out + Unescaped(inner[i..])
    {
      UnescapesNext(inner, i);
      if inner[i] == '\\' && i + 1 < |inner| && inner[i + 1] in {'"', '\\'} {
        out := out + [inner[i + 1]];
        i := i + 2;
      } else {
        out := out + [inner[i]];
        i := i + 1;
      }
    }
    assert inner[i..] == "";
    UnescapedNothing();
  }

  lemma UnescapesNext(inner: string, i: nat)
    requires i < |inner|
    ensures Unescaped(inner[i..]) ==
            if inner[i] == '\\' && i + 1 < |inner| && inner[i + 1] in {'"', '\\'}
            then [inner[i + 1]] + Unescaped(inner[i + 2..]) else [inner[i]] + Unescaped(inner[i + 1..])
  {
    var rest := inner[i..];
    assert rest[1..] == inner[i + 1..];
    if i + 1 < |inner| {
      assert rest[1] == inner[i + 1] && rest[2..] == inner[i + 2..];
    }
  }

  lemma UnescapedNothing()
    ensures Unescaped("") == ""
  {
  }

  predicate Contains(s: string, part: string) {
    part <= s || (s != "" && Contains(s[1..], part))
  }

  /** Whether YAML reads `value` as itself. */
  predicate Plain(value: string) {
    && value != "" && Trim(value) == value && !Contains(value, ": ") && !Contains(value, " #")
    && value[|value| - 1] != ':' && value[0] !in "-?:,[]{}#&*!|>'\"%@`"
  }

  function Escaped(s: string): string {
    if s == "" then ""
    else (if s[0] in {'"', '\\'} then ['\\', s[0]] else [s[0]]) + Escaped(s[1..])
  }

  /** `value` as a scalar that is read back: plain where it can be, else double-quoted. */
  function YamlScalar(value: string): string {
    if Plain(value) then value else "\"" + Escaped(value) + "\""
  }

  // ----- reading

  /** What is read so far, and whether a block list of sessions goes on. */
  datatype Reader = Reader(found: Frontmatter, inSessions: bool)

  /** The item a line of a block list is, if it is one. */
  function Item(line: string): Option<string> {
    if line != "" && (Whitespace(line[0]) || line[0] == '-') then WithoutPrefix(TrimStart(line), "- ") else None
  }

  /** The items of a flow list, those that are not empty. */
  function FlowItems(flow: string): seq<string>
    decreases |flow|
  {
    var n := FirstComma(flow);
    var item := ScalarOf(flow[..n]);
    (if item == "" then [] else [item]) + (if n == |flow| then [] else FlowItems(flow[n + 1..]))
  }

  function FirstComma(s: string): (n: nat)
    ensures n <= |s|
  {
    if s == "" || s[0] == ',' then 0 else 1 + FirstComma(s[1..])
  }

  /** What one line of the frontmatter says, its end trimmed. */
  function LineRead(reader: Reader, line: string): Reader {
    if reader.inSessions && Item(line).Some? then
      reader.(found := reader.found.(sessions := reader.found.sessions + [ScalarOf(Item(line).value)]))
    else
      var title := WithoutPrefix(line, "title:");
      var sessions := WithoutPrefix(line, "sessions:");
      if title.Some? then Reader(reader.found.(title := ScalarOf(title.value)), false)
      else if sessions.None? then Reader(reader.found, false)
      else
        var flow := Between(Trim(sessions.value), '[', ']');
        if flow.Some? then Reader(reader.found.(sessions := FlowItems(flow.value)), false)
        else Reader(reader.found, Trim(sessions.value) == "")
  }

  predicate Closes(line: string) {
    line == "---" || line == "..."
  }

  /** What the lines up to a closing one say; nothing when none closes. */
  function LinesRead(reader: Reader, lines: seq<string>): Frontmatter
    decreases |lines|
  {
    if lines == [] then NoFrontmatter
    else if Closes(TrimEnd(lines[0])) then reader.found
    else LinesRead(LineRead(reader, TrimEnd(lines[0])), lines[1..])
  }

  function FrontmatterOf(text: string): Frontmatter {
    var lines := Lines(text);
    if lines == [] || TrimEnd(lines[0]) != "---" then NoFrontmatter
    else LinesRead(Reader(NoFrontmatter, false), lines[1..])
  }

  method ReadFrontmatter(text: string) returns (found: Frontmatter)
    ensures found == FrontmatterOf(text)
  {
    hide LineRead, Lines, TrimEnd;
    var lines := Lines(text);
    if lines == [] || TrimEnd(lines[0]) != "---" {
      return NoFrontmatter;
    }
    var reader := Reader(NoFrontmatter, false);
    for i := 1 to |lines|
      invariant LinesRead(Reader(NoFrontmatter, false), lines[1..]) == LinesRead(reader, lines[i..])
    {
      assert lines[i..][1..] == lines[i + 1..];
      var line := TrimEnd(lines[i]);
      if Closes(line) {
        return reader.found;
      }
      reader := ReadLine(reader, line);
    }
    return NoFrontmatter;
  }

  /** One line of the frontmatter: an item of a list of sessions going on, or one of the two keys. */
  method ReadLine(reader: Reader, line: string) returns (next: Reader)
    ensures next == LineRead(reader, line)
  {
    hide Trim, Unescaped, Singled, FlowItems;
    next := reader;
    if next.inSessions {
      var item := WithoutPrefix(TrimStart(line), "- ");
      if item.Some? && line != "" && (Whitespace(line[0]) || line[0] == '-') {
        var session := Scalar(item.value);
        return next.(found := next.found.(sessions := next.found.sessions + [session]));
      }
      next := next.(inSessions := false);
    }
    var title := WithoutPrefix(line, "title:");
    if title.Some? {
      var read := Scalar(title.value);
      return next.(found := next.found.(title := read));
    }
    var sessions := WithoutPrefix(line, "sessions:");
    if sessions.Some? {
      var value := Trim(sessions.value);
      var flow := Between(value, '[', ']');
      if flow.Some? {
        next := next.(found := next.found.(sessions := FlowItems(flow.value)));
      } else {
        next := next.(inSessions := value == "");
      }
    }
  }

  // ----- writing

  /** The text written for a new plan: its frontmatter, and its title as the heading. */
  function NewPlanText(title: string, session: string): string {
    "---\n" + "title: " + YamlScalar(title) + "\n" +
    (if session == "" then "" else "sessions:\n" + "  - " + YamlScalar(session) + "\n") +
    "---\n" + "\n" + "# " + title + "\n"
  }

  // ----- reading back what is written

  lemma {:induction false} UnescapedEscaped(s: string)
    ensures Unescaped(Escaped(s)) == s
  {
    if s != "" {
      UnescapedEscaped(s[1..]);
      var rest := Escaped(s[1..]);
      if s[0] in {'"', '\\'} {
        assert (['\\', s[0]] + rest)[2..] == rest;
      } else {
        assert ([s[0]] + rest)[1..] == rest;
      }
      assert s == [s[0]] + s[1..];
    }
  }

  lemma {:induction false} EscapedHasNoBreak(s: string)
    requires '\n' !in s
    ensures '\n' !in Escaped(s)
  {
    if s != "" {
      assert s == [s[0]] + s[1..];
      EscapedHasNoBreak(s[1..]);
    }
  }

  /** What is written of any value is read back as it, whatever quotes, escapes or spaces it has. */
  lemma YamlScalarReadsBack(value: string)
    ensures Trimmed(YamlScalar(value)) && YamlScalar(value) != ""
    ensures ScalarOf(YamlScalar(value)) == ScalarOf(" " + YamlScalar(value)) == value
    ensures '\n' !in value ==> '\n' !in YamlScalar(value)
  {
    hide Trim, Contains;
    var written := YamlScalar(value);
    if Plain(value) {
      TrimTrims(value);
      assert value[0] != '"' && value[0] != '\'';
    } else {
      assert written[0] == '"' && written[|written| - 1] == '"' && written[1..|written| - 1] == Escaped(value);
      TrimTrims(written);
      UnescapedEscaped(value);
      if '\n' !in value {
        EscapedHasNoBreak(value);
      }
    }
    SpaceTrims(written);
  }

  lemma SpaceTrims(s: string)
    requires s != "" && Trimmed(s)
    ensures Trim(" " + s) == s && Trim(s) == s && TrimStart("  " + s) == s && TrimEnd(s) == s
  {
    assert (" " + s)[1..] == s && ("  " + s)[1..] == " " + s;
    assert TrimStart(s) == s;
  }

  lemma {:induction false} BreakAt(line: string, rest: string)
    requires '\n' !in line
    ensures FirstBreak(line + "\n" + rest) == |line|
  {
    if line != "" {
      assert line == [line[0]] + line[1..];
      BreakAt(line[1..], rest);
      assert (line + "\n" + rest)[1..] == line[1..] + "\n" + rest;
    }
  }

  lemma LineThen(line: string, rest: string)
    requires '\n' !in line && (line == "" || line[|line| - 1] != '\r')
    ensures Lines(line + "\n" + rest) == [line] + Lines(rest)
  {
    BreakAt(line, rest);
    hide FirstBreak;
    var text := line + "\n" + rest;
    assert text[..|line|] == line && text[|line| + 1..] == rest;
  }

  /** A line whose end is no whitespace, as every line written but the heading's is. */
  predicate Written(line: string) {
    line != "" && '\n' !in line && !Whitespace(line[|line| - 1])
  }

  lemma WrittenLine(line: string, rest: string)
    requires Written(line)
    ensures Lines(line + "\n" + rest) == [line] + Lines(rest) && TrimEnd(line) == line
  {
    LineThen(line, rest);
    hide Lines;
  }

  /** A key before its scalar is a line as written. */
  lemma KeyWritten(key: string, value: string)
    requires '\n' !in key && '\n' !in value
    ensures Written(key + YamlScalar(value))
  {
    hide Trim, Plain, Escaped, ScalarOf;
    YamlScalarReadsBack(value);
    var written := YamlScalar(value);
    var line := key + written;
    assert line[|line| - 1] == written[|written| - 1];
  }

  lemma TitleRead(reader: Reader, title: string)
    requires !reader.inSessions
    ensures LineRead(reader, "title: " + YamlScalar(title)) == Reader(reader.found.(title := title), false)
  {
    hide Trim, YamlScalar, ScalarOf;
    YamlScalarReadsBack(title);
    assert ("title: " + YamlScalar(title))[6..] == " " + YamlScalar(title);
  }

  lemma SessionRead(reader: Reader, session: string)
    requires reader.inSessions
    ensures LineRead(reader, "  - " + YamlScalar(session)) ==
            reader.(found := reader.found.(sessions := reader.found.sessions + [session]))
  {
    hide Trim, YamlScalar, ScalarOf, TrimStart;
    YamlScalarReadsBack(session);
    var item := "- " + YamlScalar(session);
    SpaceTrims(item) by { assert item[|item| - 1] == YamlScalar(session)[|YamlScalar(session)| - 1]; }
    assert "  - " + YamlScalar(session) == "  " + item;
    assert item[2..] == YamlScalar(session);
  }

  lemma SessionsBegin(reader: Reader)
    requires !reader.inSessions
    ensures LineRead(reader, "sessions:") == reader.(inSessions := true)
  {
    assert "sessions:"[0] != "title:"[0] && "sessions:"[9..] == "";
    assert Trim("") == "";
  }

  // ----- what else is read

  /** A value with each single quote in it doubled. */
  function Doubled(s: string): string {
    if s == "" then "" else (if s[0] == '\'' then "''" else [s[0]]) + Doubled(s[1..])
  }

  lemma {:induction false} SingledDoubled(s: string)
    ensures Singled(Doubled(s)) == s
  {
    if s != "" {
      SingledDoubled(s[1..]);
      var rest := Doubled(s[1..]);
      if s[0] == '\'' {
        assert ("''" + rest)[2..] == rest;
      } else {
        assert ([s[0]] + rest)[1..] == rest;
      }
      assert s == [s[0]] + s[1..];
    }
  }

  /** Any value is read of itself in single quotes, those in it doubled. */
  lemma SingleQuotedReads(s: string)
    ensures ScalarOf("'" + Doubled(s) + "'") == s
  {
    var quoted := "'" + Doubled(s) + "'";
    assert quoted[1..|quoted| - 1] == Doubled(s);
    TrimTrims(quoted);
    hide Trim, Singled, Doubled;
    SingledDoubled(s);
  }

  /** The lines of a block list of sessions. */
  function BlockItems(sessions: seq<string>): seq<string> {
    if sessions == [] then [] else
      BlockItems(sessions[..|sessions| - 1]) + ["  - " + YamlScalar(sessions[|sessions| - 1])]
  }

  /** Each line of a block list adds its session, in order. */
  lemma {:induction false} BlockReads(found: Frontmatter, sessions: seq<string>, rest: seq<string>)
    ensures LinesRead(Reader(found, true), BlockItems(sessions) + rest) ==
            LinesRead(Reader(found.(sessions := found.sessions + sessions), true), rest)
  {
    hide YamlScalar, LineRead, TrimEnd, LinesRead;
    if sessions == [] {
      assert BlockItems(sessions) + rest == rest && found.sessions + sessions == found.sessions;
    } else {
      var (before, last) := (sessions[..|sessions| - 1], sessions[|sessions| - 1]);
      var line := "  - " + YamlScalar(last);
      BlockReads(found, before, [line] + rest);
      assert BlockItems(sessions) + rest == BlockItems(before) + ([line] + rest);
      var reader := Reader(found.(sessions := found.sessions + before), true);
      ItemEnds(last);
      SessionRead(reader, last);
      ReadsOn(reader, line, rest);
      assert sessions == before + [last];
      assert found.sessions + before + [last] == found.sessions + sessions;
    }
  }

  /** A line that closes nothing is read, and the rest after it. */
  lemma ReadsOn(reader: Reader, line: string, rest: seq<string>)
    requires TrimEnd(line) == line && !Closes(line)
    ensures LinesRead(reader, [line] + rest) == LinesRead(LineRead(reader, line), rest)
  {
    hide LineRead, TrimEnd;
    assert ([line] + rest)[1..] == rest;
  }

  lemma ItemEnds(session: string)
    ensures TrimEnd("  - " + YamlScalar(session)) == "  - " + YamlScalar(session)
    ensures !Closes("  - " + YamlScalar(session))
  {
    hide Trim, YamlScalar, ScalarOf;
    YamlScalarReadsBack(session);
    var line := "  - " + YamlScalar(session);
    assert line[|line| - 1] == YamlScalar(session)[|YamlScalar(session)| - 1];
    assert line[0] == ' ';
  }

  /** A flow list's text: items between commas. */
  function FlowText(items: seq<string>): string {
    if items == [] then "" else YamlScalar(items[0]) + if |items| == 1 then "" else ", " + FlowText(items[1..])
  }

  /** A flow list of values without commas, none empty, is read as them. */
  lemma {:induction false} FlowReadsBack(items: seq<string>)
    requires forall i :: 0 <= i < |items| ==> items[i] != "" && ',' !in YamlScalar(items[i])
    ensures FlowItems(FlowText(items)) == FlowItems(" " + FlowText(items)) == items
  {
    hide Trim, YamlScalar, ScalarOf, FlowItems;
    if items == [] {
      NoItems();
      assert " " + FlowText(items) == " ";
    } else {
      var first := YamlScalar(items[0]);
      YamlScalarReadsBack(items[0]);
      assert items == [items[0]] + items[1..];
      if |items| == 1 {
        FlowLast(first, items[0]);
        FlowLast(" " + first, items[0]);
        assert FlowText(items) == first;
      } else {
        FlowReadsBack(items[1..]);
        FlowNext(first, items[0], " " + FlowText(items[1..]));
        FlowNext(" " + first, items[0], " " + FlowText(items[1..]));
        assert FlowText(items) == first + "," + (" " + FlowText(items[1..]));
        assert " " + FlowText(items) == " " + first + "," + (" " + FlowText(items[1..]));
      }
    }
  }

  lemma NoItems()
    ensures FlowItems("") == FlowItems(" ") == [] && FlowText([]) == ""
  {
    assert ScalarOf("") == "" && ScalarOf(" ") == "" by {
      TrimTrims("");
      assert TrimStart(" ") == "";
    }
    assert FirstComma(" ") == 1;
    assert " "[..1] == " " && ""[..0] == "";
  }

  lemma {:induction false} CommaAt(a: string, b: string)
    requires ',' !in a
    ensures FirstComma(a) == |a| && FirstComma(a + "," + b) == |a|
  {
    if a != "" {
      assert a == [a[0]] + a[1..];
      CommaAt(a[1..], b);
      assert (a + "," + b)[1..] == a[1..] + "," + b;
    }
  }

  lemma FlowLast(text: string, item: string)
    requires ',' !in text && ScalarOf(text) == item != ""
    ensures FlowItems(text) == [item]
  {
    CommaAt(text, "");
    assert text[..|text|] == text;
    hide ScalarOf, FirstComma;
  }

  lemma FlowNext(text: string, item: string, rest: string)
    requires ',' !in text && ScalarOf(text) == item != ""
    ensures FlowItems(text + "," + rest) == [item] + FlowItems(rest)
  {
    CommaAt(text, rest);
    var whole := text + "," + rest;
    assert whole[..|text|] == text && whole[|text| + 1..] == rest;
    hide ScalarOf, FirstComma;
  }

  /** Frontmatter that is never closed, or never opened, says nothing. */
  lemma {:induction false} UnclosedSaysNothing(reader: Reader, lines: seq<string>)
    requires forall i :: 0 <= i < |lines| ==> !Closes(TrimEnd(lines[i]))
    ensures LinesRead(reader, lines) == NoFrontmatter
    decreases |lines|
  {
    hide LineRead, TrimEnd;
    if lines != [] {
      UnclosedSaysNothing(LineRead(reader, TrimEnd(lines[0])), lines[1..]);
    }
  }

  /** Past its closing line frontmatter says nothing more, and a line of any other key says nothing. */
  lemma OthersSayNothing(reader: Reader, line: string, rest: seq<string>)
    ensures Closes(TrimEnd(line)) ==> LinesRead(reader, [line] + rest) == reader.found
    ensures !("title:" <= line) && !("sessions:" <= line) && !(reader.inSessions && Item(line).Some?) ==>
              LineRead(reader, line) == Reader(reader.found, false)
  {
    hide TrimEnd, Item;
    assert ([line] + rest)[0] == line;
  }

  /** The text of a new plan is read back as its title and, given one, its one session. */
  lemma NewPlanReadsBack(title: string, session: string)
    requires '\n' !in title && '\n' !in session
    ensures FrontmatterOf(NewPlanText(title, session)) == Frontmatter(title, if session == "" then [] else [session])
  {
    hide Trim, YamlScalar, ScalarOf, Lines, LineRead, TrimEnd;
    var heading := "\n" + "# " + title + "\n";
    var end := "---\n" + heading;
    var sessions := (if session == "" then "" else "sessions:\n" + "  - " + YamlScalar(session) + "\n") + end;
    var titled := "title: " + YamlScalar(title) + "\n" + sessions;
    assert NewPlanText(title, session) == "---" + "\n" + titled;
    WrittenLine("---", titled);
    KeyWritten("title: ", title);
    WrittenLine("title: " + YamlScalar(title), sessions);
    WrittenLine("---", heading);
    var reader := Reader(NoFrontmatter, false);
    var read := Reader(Frontmatter(title, []), false);
    TitleRead(reader, title);
    EndRead(read, heading);
    if session != "" {
      assert [] + [session] == [session];
      EndRead(Reader(Frontmatter(title, [session]), true), heading);
      WithSession(read, session, end);
    } else {
      assert sessions == end;
    }
    assert Lines(NewPlanText(title, session))[1..] == Lines(titled);
    OneRead(reader, "title: " + YamlScalar(title), sessions);
  }

  /** One more line, which closes nothing, is read before the rest. */
  lemma OneRead(reader: Reader, line: string, rest: string)
    requires Written(line) && !Closes(line)
    ensures LinesRead(reader, Lines(line + "\n" + rest)) == LinesRead(LineRead(reader, line), Lines(rest))
  {
    hide Lines, LineRead;
    WrittenLine(line, rest);
    assert ([line] + Lines(rest))[1..] == Lines(rest);
  }

  lemma EndRead(reader: Reader, rest: string)
    ensures LinesRead(reader, Lines("---\n" + rest)) == reader.found
  {
    hide Lines, LineRead;
    WrittenLine("---", rest);
    assert "---\n" + rest == "---" + "\n" + rest;
  }

  lemma WithSession(reader: Reader, session: string, end: string)
    requires !reader.inSessions && '\n' !in session
    requires var listed := Reader(reader.found.(sessions := reader.found.sessions + [session]), true);
             LinesRead(listed, Lines(end)) == listed.found
    ensures LinesRead(reader, Lines("sessions:\n" + "  - " + YamlScalar(session) + "\n" + end)) ==
            reader.found.(sessions := reader.found.sessions + [session])
  {
    hide Lines, LineRead, LinesRead, YamlScalar, Trim;
    var item := "  - " + YamlScalar(session);
    assert "sessions:\n" + "  - " + YamlScalar(session) + "\n" + end == "sessions:" + "\n" + (item + "\n" + end);
    KeyWritten("  - ", session);
    SessionsBegin(reader);
    OneRead(reader, "sessions:", item + "\n" + end);
    SessionRead(reader.(inSessions := true), session);
    OneRead(reader.(inSessions := true), item, end);
  }

  // ----- titles

  /** The first heading of a text's lines, trimmed; none when there is none. */
  function FirstHeading(lines: seq<string>): Option<string> {
    if lines == [] then None
    else
      var heading := WithoutPrefix(lines[0], "# ");
      if heading.Some? then Some(Trim(heading.value)) else FirstHeading(lines[1..])
  }

  /** A plan's title from its text: the frontmatter's, else its first heading, else `name`. */
  function TitleOf(text: string, name: string): string {
    var title := FrontmatterOf(text).title;
    var heading := FirstHeading(Lines(text));
    if Trim(title) != "" then title
    else if heading.Some? && heading.value != "" then heading.value
    else name
  }

  /** The line at `i` is the first heading. */
  predicate Heads(lines: seq<string>, i: nat) {
    i < |lines| && "# " <= lines[i] && forall j :: 0 <= j < i ==> !("# " <= lines[j])
  }

  lemma {:induction false} FirstHeadingIs(lines: seq<string>)
    ensures forall i: nat :: Heads(lines, i) ==> FirstHeading(lines) == Some(Trim(lines[i][2..]))
    ensures FirstHeading(lines).None? <==> forall i :: 0 <= i < |lines| ==> !("# " <= lines[i])
  {
    hide Trim;
    if lines != [] {
      FirstHeadingIs(lines[1..]);
      assert forall i :: 0 < i < |lines| ==> lines[i] == lines[1..][i - 1];
      forall i: nat | Heads(lines, i) ensures FirstHeading(lines) == Some(Trim(lines[i][2..])) {
        if i > 0 {
          assert Heads(lines[1..], i - 1);
        }
      }
    }
  }

  /** The title a text has: its frontmatter's; where that is blank its first heading's; where that is, the name. */
  lemma TitleMeans(text: string, name: string)
    ensures var (title, lines) := (FrontmatterOf(text).title, Lines(text));
            if Trim(title) != "" then TitleOf(text, name) == title
            else
              && ((forall i :: 0 <= i < |lines| ==> !("# " <= lines[i])) ==> TitleOf(text, name) == name)
              && forall i: nat :: Heads(lines, i) ==>
                   TitleOf(text, name) == if Trim(lines[i][2..]) != "" then Trim(lines[i][2..]) else name
  {
    FirstHeadingIs(Lines(text));
    hide Trim, FrontmatterOf, Lines, FirstHeading;
  }

  /** A new plan has the title it was added with, unless that is blank. */
  lemma NewPlanTitled(title: string, session: string, name: string)
    requires '\n' !in title && '\n' !in session && Trim(title) != ""
    ensures TitleOf(NewPlanText(title, session), name) == title
  {
    hide FrontmatterOf, NewPlanText, Lines, FirstHeading;
    NewPlanReadsBack(title, session);
  }
}
