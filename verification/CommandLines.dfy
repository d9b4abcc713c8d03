/** Command lines end to end: what the MQTT command server writes, and what the command parser
    and the handlers read back.

    Models buildNetCommand and buildMqttConfigCommand of
    lib/mqtt_commands/src/MqttCommandServer.cpp, lib/MotorControl/src/command/CommandParser.cpp,
    and the argument handling of the NET and MQTT handlers in
    lib/MotorControl/src/command/CommandHandlers.cpp. */
module CommandLines {
  import opened Wrappers
  import opened TextScan
  import opened CommandText
  import opened KeyValueArgs
  import opened ConfigStore

  // ---------------- the command parser ----------------

  datatype ParsedCommand = ParsedCommand(raw: string, action: string, args: string)

  /** The action ends at the first space or colon, whichever comes first. */
  function Head(cmd: string): ParsedCommand {
    var space, colon := Find(cmd, ' '), Find(cmd, ':');
    if space < colon then ParsedCommand(cmd, ToUpperCopy(cmd[..space]), cmd[space + 1..])
    else if colon < |cmd| then ParsedCommand(cmd, ToUpperCopy(cmd[..colon]), cmd[colon + 1..])
    else ParsedCommand(cmd, ToUpperCopy(cmd), "")
  }

  function Commands(segments: seq<string>): seq<ParsedCommand> {
    if segments == [] then []
    else (if Trim(segments[0]) == "" then [] else [Head(Trim(segments[0]))]) + Commands(segments[1..])
  }

  function Parse(line: string): seq<ParsedCommand> { Commands(Split(Trim(line), ';')) }

  method ParseLine(line: string) returns (out: seq<ParsedCommand>)
    ensures out == Parse(line)
  {
    hide Trim, Split, Head;
    out := [];
    var trimmed := TrimText(line);
    if trimmed == "" {
      SplitEmpty(trimmed, ';');
      return;
    }
    var segments := SplitText(trimmed, ';');
    var i := 0;
    assert segments[0..] == segments;
    while i < |segments|
      invariant i <= |segments| && out + Commands(segments[i..]) == Commands(segments)
    {
      var cmd := TrimText(segments[i]);
      CommandsAt(segments, i);
      hide Commands;
      ghost var rest := Commands(segments[i + 1..]);
      if cmd != "" {
        var parsed := Interpret(cmd);
        assert out + ([parsed] + rest) == out + [parsed] + rest;
        out := out + [parsed];
      } else {
        assert [] + rest == rest;
      }
      i := i + 1;
    }
  }

  lemma CommandsAt(segments: seq<string>, i: nat)
    requires i < |segments|
    ensures Commands(segments[i..]) ==
      (if Trim(segments[i]) == "" then [] else [Head(Trim(segments[i]))]) + Commands(segments[i + 1..])
  {
    hide Trim, Head;
    assert segments[i..][1..] == segments[i + 1..];
  }

  method Interpret(cmd: string) returns (parsed: ParsedCommand)
    ensures parsed == Head(cmd)
  {
    var space, colon := Find(cmd, ' '), Find(cmd, ':');
    if space != |cmd| && (colon == |cmd| || space < colon) {
      parsed := ParsedCommand(cmd, ToUpperCopy(cmd[..space]), cmd[space + 1..]);
    } else if colon != |cmd| {
      parsed := ParsedCommand(cmd, ToUpperCopy(cmd[..colon]), cmd[colon + 1..]);
    } else {
      parsed := ParsedCommand(cmd, ToUpperCopy(cmd), "");
    }
  }

  lemma {:induction false} RawsClean(segments: seq<string>)
    requires forall k :: 0 <= k < |segments| ==> ';' !in segments[k]
    ensures forall k :: 0 <= k < |Commands(segments)| ==> ';' !in Commands(segments)[k].raw
  {
    if segments != [] {
      RawsClean(segments[1..]);
      TrimWithin(segments[0]);
      hide Trim;
    }
  }

  lemma TrimWithin(s: string)
    ensures forall c :: c in Trim(s) ==> c in s
  {
  }

  /** A line without spaces around it is taken as the one command it is if and only if it holds
      no ';', quoted or not. */
  lemma {:induction false} OneCommandIff(line: string)
    requires line != "" && Tight(line)
    ensures Parse(line) == [Head(line)] <==> ';' !in line
  {
    TrimTight(line);
    hide Trim, Split, Head;
    if ';' in line {
      PiecesClean(line, ';');
      RawsClean(Split(line, ';'));
      HeadRaw(line);
      var commands := Commands(Split(line, ';'));
      assert |commands| > 0 ==> commands[0].raw != line;
    } else {
      SplitStep(line, ';', |line|);
      assert Commands([line][1..]) == [];
    }
  }

  lemma HeadRaw(cmd: string)
    ensures Head(cmd).raw == cmd
  {
  }

  /** An action in upper case, a colon, the arguments. */
  lemma {:induction false} HeadOf(action: string, args: string)
    requires ' ' !in action && ':' !in action
    ensures Head(action + ([':'] + args)) == ParsedCommand(action + ([':'] + args), ToUpperCopy(action), args)
  {
    var line := action + ([':'] + args);
    var k := |action|;
    assert line[..k] == action && line[k + 1..] == args && line[k] == ':';
    FindUnique(line, ':', k);
    assert forall j :: 0 <= j <= k ==> line[j] != ' ';
  }

  lemma {:induction false} ParsesAs(action: string, args: string)
    requires ' ' !in action && ':' !in action && ToUpperCopy(action) == action
    requires Tight(action + ([':'] + args))
    ensures var line := action + ([':'] + args);
      Parse(line) == [ParsedCommand(line, action, args)] <==> ';' !in line
  {
    hide Parse, Head, Tight, ToUpperCopy;
    OneCommandIff(action + ([':'] + args));
    HeadOf(action, args);
  }

  lemma {:induction false} EscapeHas(s: string, c: char)
    requires !Special(c)
    ensures c in Escape(s) <==> c in s
  {
    if s != "" {
      EscapeHas(s[1..], c);
      assert s == [s[0]] + s[1..];
    }
  }

  lemma InConcat(a: string, b: string, c: char)
    ensures c in a + b <==> c in a || c in b
  {
  }

  lemma {:induction false} QuotedHas(s: string, c: char)
    requires !Special(c)
    ensures c in QuoteString(s) <==> c in s
  {
    EscapeHas(s, c);
    hide Escape;
    InConcat("\"", Escape(s), c);
    InConcat("\"" + Escape(s), "\"", c);
  }

  // ---------------- NET:SET ----------------

  function NetSetArgs(ssid: string, pass: string): string { "SET" + ([','] + CsvLine([ssid, pass])) }

  function NetSetLine(ssid: string, pass: string): string { "NET" + ([':'] + NetSetArgs(ssid, pass)) }

  method BuildNetSet(ssid: string, pass: string) returns (line: string)
    ensures line == NetSetLine(ssid, pass)
  {
    var a := QuoteText(ssid);
    var b := QuoteText(pass);
    line := "NET:SET" + "," + a + "," + b;
    hide QuoteString;
    assert [ssid, pass][1..] == [pass];
    assert CsvLine([ssid, pass]) == a + ([','] + b);
  }

  datatype NetOutcome = NotSet | Busy | BadParam | PassTooShort | Credentials(ssid: string, pass: string)

  /** The SET branch of the NET handler, up to the credentials it stores. */
  function NetSet(args: string, connecting: bool): NetOutcome {
    var a := Trim(args);
    var up := ToUpperCopy(a);
    var comma := Find(up, ',');
    if (if comma < |up| then Trim(up[..comma]) else up) != "SET" then NotSet
    else if connecting then Busy
    else
      var tokens := ParseCsvQuoted(a);
      if |tokens| != 3 then BadParam else CheckCredentials(tokens[1], tokens[2])
  }

  function CheckCredentials(ssid: string, pass: string): NetOutcome {
    if ssid == "" || |ssid| > 32 then BadParam
    else if 0 < |pass| < 8 then PassTooShort
    else if |pass| > 63 then BadParam
    else Credentials(ssid, pass)
  }

  lemma {:induction false} NetTokens(ssid: string, pass: string)
    ensures ParseCsvQuoted(NetSetArgs(ssid, pass)) == ["SET", Trim(ssid), Trim(pass)]
  {
    hide CsvLine, CsvRun, CsvFields, Trim, Trimmed;
    var line := CsvLine([ssid, pass]);
    SetRead([','] + line);
    CsvComma([], "SET", line);
    SetTight();
    assert [] + [Trim("SET")] == ["SET"];
    CsvLineFrom(["SET"], [ssid, pass]);
    assert ["SET"] + Trimmed([ssid, pass]) == ["SET", Trim(ssid), Trim(pass)];
  }

  lemma SetTight()
    ensures Trim("SET") == "SET"
  {
    hide Trim;
    TrimTight("SET");
  }

  lemma SetRead(rest: string)
    ensures CsvRun(Csv([], "", false, false), "SET" + rest) == CsvRun(Csv([], "SET", false, false), rest)
  {
    hide CsvRun;
    CsvPlain([], "", "SET", rest);
    assert "" + "SET" == "SET";
  }

  /** A word without commas and quotes is read as it is. */
  lemma {:induction false} CsvPlain(out: seq<string>, cur: string, word: string, rest: string)
    requires ',' !in word && '"' !in word
    ensures CsvRun(Csv(out, cur, false, false), word + rest) == CsvRun(Csv(out, cur + word, false, false), rest)
    decreases |word|
  {
    hide CsvRun, Trim;
    if word == "" {
      assert word + rest == rest && cur + word == cur;
    } else {
      var c, tail := word[0], word[1..];
      assert word + rest == [c] + (tail + rest) && cur + [c] + tail == cur + word;
      CsvHead(Csv(out, cur, false, false), c, tail + rest);
      CsvPlain(out, cur + [c], tail, rest);
    }
  }

  lemma {:induction false} NetArgsTight(ssid: string, pass: string)
    ensures Tight(NetSetArgs(ssid, pass)) && Tight(NetSetLine(ssid, pass))
    ensures |NetSetArgs(ssid, pass)| > 3 && NetSetArgs(ssid, pass)[..4] == "SET,"
  {
    CsvLineEnds([ssid, pass]);
    hide CsvLine;
  }

  lemma {:induction false} CsvLineEnds(fields: seq<string>)
    requires fields != []
    ensures CsvLine(fields) != "" && CsvLine(fields)[|CsvLine(fields)| - 1] == '"'
    decreases |fields|
  {
    if |fields| > 1 { CsvLineEnds(fields[1..]); }
  }

  lemma {:induction false} NetLineHas(ssid: string, pass: string)
    ensures ';' in NetSetLine(ssid, pass) <==> ';' in ssid || ';' in pass
  {
    QuotedHas(ssid, ';');
    QuotedHas(pass, ';');
    var a, b := QuoteString(ssid), QuoteString(pass);
    assert [ssid, pass][1..] == [pass];
    CsvLineUnfold([ssid, pass]);
    assert CsvLine([pass]) == b;
    assert NetSetLine(ssid, pass) == "NET" + ([':'] + ("SET" + ([','] + (a + ([','] + b)))));
    hide QuoteString, NetSetLine;
    InConcat([','], b, ';');
    InConcat(a, [','] + b, ';');
    InConcat([','], a + ([','] + b), ';');
    InConcat("SET", [','] + (a + ([','] + b)), ';');
    InConcat([':'], "SET" + ([','] + (a + ([','] + b))), ';');
    InConcat("NET", [':'] + ("SET" + ([','] + (a + ([','] + b)))), ';');
  }

  /** NET:SET built from any network name and password is parsed as the one command it is if
      and only if neither holds a ';'. */
  lemma {:induction false} NetSetParsesIff(ssid: string, pass: string)
    ensures var line := NetSetLine(ssid, pass);
      Parse(line) == [ParsedCommand(line, "NET", NetSetArgs(ssid, pass))] <==> ';' !in ssid && ';' !in pass
  {
    NetArgsTight(ssid, pass);
    NetLineHas(ssid, pass);
    assert ToUpperCopy("NET") == "NET";
    hide NetSetArgs, Parse, Tight, ToUpperCopy;
    ParsesAs("NET", NetSetArgs(ssid, pass));
  }

  /** And the handler then stores exactly the trimmed name and password, within its limits on
      their lengths. */
  lemma {:induction false} NetSetReadBack(ssid: string, pass: string, connecting: bool)
    requires ';' !in ssid && ';' !in pass
    ensures var commands := Parse(NetSetLine(ssid, pass));
      && |commands| == 1 && commands[0].action == "NET"
      && NetSet(commands[0].args, connecting) ==
         if connecting then Busy else CheckCredentials(Trim(ssid), Trim(pass))
  {
    NetSetParsesIff(ssid, pass);
    NetArgsTight(ssid, pass);
    NetTokens(ssid, pass);
    NetSetFinds(NetSetArgs(ssid, pass), Trim(ssid), Trim(pass), connecting);
  }

  lemma {:induction false} NetSetFinds(args: string, ssid: string, pass: string, connecting: bool)
    requires Tight(args) && |args| > 3 && args[..4] == "SET," && ParseCsvQuoted(args) == ["SET", ssid, pass]
    ensures NetSet(args, connecting) == if connecting then Busy else CheckCredentials(ssid, pass)
  {
    TrimTight(args);
    TrimTight("SET");
    hide Trim, ParseCsvQuoted, CheckCredentials;
    assert forall j :: 0 <= j < 4 ==> args[j] == args[..4][j];
    var up := ToUpperCopy(args);
    FindUnique(up, ',', 3);
    assert up[..3] == "SET";
  }

  // ---------------- MQTT:SET_CONFIG ----------------

  /** The fields of a SET_CONFIG message that are present; the port already a number. */
  datatype Request = Request(host: Option<string>, port: Option<int>, user: Option<string>, pass: Option<string>)

  datatype Built = Line(line: string) | Rejected(error: string)

  function TextEntry(key: string, field: Option<string>): seq<(string, string)> {
    if field.Some? then [(key, field.value)] else []
  }

  function PortEntry(field: Option<int>): seq<(string, string)> {
    if field.Some? && field.value >= 0 then [("port", Decimal(field.value))] else []
  }

  function Entries(r: Request): seq<(string, string)> {
    TextEntry("host", r.host) + PortEntry(r.port) + TextEntry("user", r.user) + TextEntry("pass", r.pass)
  }

  predicate SaysDefault(field: Option<string>) { field.Some? && ToUpperCopy(field.value) == "DEFAULT" }

  function BuildError(r: Request): string {
    if SaysDefault(r.host) then "host cannot be 'default'"
    else if r.port.Some? && !(0 < r.port.value <= 65535) then "port must be 1-65535"
    else if SaysDefault(r.user) then "user cannot be 'default'"
    else if SaysDefault(r.pass) then "pass cannot be 'default'"
    else if Entries(r) == [] then "no fields provided"
    else ""
  }

  function SetConfigArgs(pairs: seq<(string, string)>): string { "SET_CONFIG" + ([' '] + ArgsText(pairs)) }

  function SetConfigLine(pairs: seq<(string, string)>): string { "MQTT" + ([':'] + SetConfigArgs(pairs)) }

  /** The entries as they are appended, each behind a space. */
  function Appended(pairs: seq<(string, string)>): string {
    if pairs == [] then "" else " " + EntryText(pairs[0]) + Appended(pairs[1..])
  }

  lemma {:induction false} AppendedOne(pairs: seq<(string, string)>, pair: (string, string))
    ensures Appended(pairs + [pair]) == Appended(pairs) + " " + EntryText(pair)
  {
    hide EntryText;
    if pairs == [] {
      assert pairs + [pair] == [pair] && [pair][1..] == [];
      assert Appended([pair]) == " " + EntryText(pair) + "";
    } else {
      var first, rest := " " + EntryText(pairs[0]), Appended(pairs[1..]);
      assert (pairs + [pair])[1..] == pairs[1..] + [pair];
      AppendedOne(pairs[1..], pair);
      assert first + (rest + " " + EntryText(pair)) == first + rest + " " + EntryText(pair);
    }
  }

  lemma {:induction false} AppendedIsArgs(pairs: seq<(string, string)>)
    requires pairs != []
    ensures Appended(pairs) == " " + ArgsText(pairs)
    decreases |pairs|
  {
    hide EntryText;
    if |pairs| == 1 {
      assert Appended(pairs[1..]) == "";
    } else {
      AppendedIsArgs(pairs[1..]);
    }
  }

  method AppendText(cmd: string, key: string, field: Option<string>, ghost pairs: seq<(string, string)>)
    returns (ok: bool, out: string)
    requires cmd == "MQTT:SET_CONFIG" + Appended(pairs)
    ensures ok == !SaysDefault(field)
    ensures ok ==> out == "MQTT:SET_CONFIG" + Appended(pairs + TextEntry(key, field))
  {
    hide Appended, QuoteIfNeeded;
    ok, out := true, cmd;
    match field
    case None =>
      assert pairs + [] == pairs;
    case Some(value) =>
      if ToUpperCopy(value) == "DEFAULT" {
        return false, cmd;
      }
      var text := QuoteTextIfNeeded(value);
      AppendedOne(pairs, (key, value));
      out := cmd + " " + key + "=" + text;
      assert out == "MQTT:SET_CONFIG" + (Appended(pairs) + " " + (key + ("=" + text)));
  }

  lemma DecimalPlain(n: nat)
    ensures QuoteIfNeeded(Decimal(n)) == Decimal(n)
  {
    var s := Decimal(n);
    assert forall k :: 0 <= k < |s| ==> IsDigit(s[k]);
  }

  method AppendPort(cmd: string, field: Option<int>, ghost pairs: seq<(string, string)>) returns (ok: bool, out: string)
    requires cmd == "MQTT:SET_CONFIG" + Appended(pairs)
    ensures ok == (field.Some? ==> 0 < field.value <= 65535)
    ensures ok ==> out == "MQTT:SET_CONFIG" + Appended(pairs + PortEntry(field))
  {
    hide Appended, QuoteIfNeeded, Decimal;
    ok, out := true, cmd;
    match field
    case None =>
      assert pairs + [] == pairs;
    case Some(parsed) =>
      if parsed <= 0 || parsed > 65535 {
        return false, cmd;
      }
      DecimalPlain(parsed);
      AppendedOne(pairs, ("port", Decimal(parsed)));
      out := cmd + " port=" + Decimal(parsed);
      assert " port=" + Decimal(parsed) == " " + ("port" + ("=" + Decimal(parsed)));
      assert out == "MQTT:SET_CONFIG" + (Appended(pairs) + " " + EntryText(("port", Decimal(parsed))));
  }

  method BuildSetConfig(r: Request) returns (built: Built)
    ensures built == if BuildError(r) != "" then Rejected(BuildError(r)) else Line(SetConfigLine(Entries(r)))
  {
    hide Appended, SaysDefault, EntryText, ArgsText;
    EmptyAppended();
    var ok, cmd := AppendText("MQTT:SET_CONFIG", "host", r.host, []);
    if !ok {
      return Rejected("host cannot be 'default'");
    }
    ghost var pairs := [] + TextEntry("host", r.host);
    ok, cmd := AppendPort(cmd, r.port, pairs);
    if !ok {
      return Rejected("port must be 1-65535");
    }
    pairs := pairs + PortEntry(r.port);
    ok, cmd := AppendText(cmd, "user", r.user, pairs);
    if !ok {
      return Rejected("user cannot be 'default'");
    }
    pairs := pairs + TextEntry("user", r.user);
    ok, cmd := AppendText(cmd, "pass", r.pass, pairs);
    if !ok {
      return Rejected("pass cannot be 'default'");
    }
    pairs := pairs + TextEntry("pass", r.pass);
    assert pairs == Entries(r);
    if r.host.None? && r.port.None? && r.user.None? && r.pass.None? {
      return Rejected("no fields provided");
    }
    AppendedIsArgs(pairs);
    assert cmd == SetConfigLine(pairs);
    built := Line(cmd);
  }

  lemma EmptyAppended()
    ensures Appended([]) == "" && "MQTT:SET_CONFIG" == "MQTT:SET_CONFIG" + ""
  {
  }

  // ---------------- the MQTT handler ----------------

  datatype Outcome = NotSetConfig | Fails(code: string, detail: string) | Requested(update: Update)

  function FirstBlank(s: string): (k: nat)
    ensures k <= |s| && (k < |s| ==> s[k] == ' ' || s[k] == '\t') && forall j :: 0 <= j < k ==> s[j] != ' ' && s[j] != '\t'
  {
    if s == "" || s[0] == ' ' || s[0] == '\t' then 0 else 1 + FirstBlank(s[1..])
  }

  const RESET_ALL := Update(UseDefault, UseDefault, UseDefault, UseDefault)
  const NO_CHANGE := Update(Keep, Keep, Keep, Keep)

  /** One entry of the arguments, recorded in the update. */
  function Record(update: Update, key: string, value: string): Outcome {
    if ToUpperCopy(value) == "DEFAULT" then Fails("UNSUPPORTED_DEFAULT", key)
    else if key == "HOST" then Requested(update.(host := Set(value)))
    else if key == "PORT" then
      if value == "" then Fails("INVALID_PORT", value)
      else match Strtol(value)
        case Some(port) => if port <= 0 || port > 65535 then Fails("INVALID_PORT", value) else Requested(update.(port := Set(port)))
        case None => Fails("INVALID_PORT", value)
    else if key == "USER" then Requested(update.(user := Set(value)))
    else if key == "PASS" || key == "PASSWORD" then Requested(update.(pass := Set(value)))
    else Fails("UNSUPPORTED_FIELD", key)
  }

  function RecordAll(update: Update, pairs: seq<(string, string)>): Outcome
    decreases |pairs|
  {
    if pairs == [] then Requested(update)
    else
      var r := Record(update, ToUpperCopy(Trim(pairs[0].0)), Trim(pairs[0].1));
      if r.Requested? then RecordAll(r.update, pairs[1..]) else r
  }

  function TailUpdate(tail: string): Outcome {
    if tail == "" then Fails("MISSING_FIELDS", "")
    else if ToUpperCopy(tail) == "RESET" || ToUpperCopy(tail) == "DEFAULTS" then Requested(RESET_ALL)
    else match ParseArgs(tail)
      case Bad(error) => Fails("INVALID", error)
      case Pairs(pairs) => if pairs == [] then Fails("MISSING_FIELDS", "") else RecordAll(NO_CHANGE, pairs)
  }

  /** The SET_CONFIG branch of the MQTT handler, up to the update it hands to the store. */
  function SetConfig(args: string): Outcome {
    var a := Trim(args);
    var k := FirstBlank(a);
    if a == "" then Fails("MISSING_SUBCOMMAND", "")
    else if ToUpperCopy(a[..k]) != "SET_CONFIG" then NotSetConfig
    else TailUpdate(if k < |a| then Trim(a[k + 1..]) else "")
  }

  method RecordPairs(pairs: seq<(string, string)>) returns (out: Outcome)
    ensures out == RecordAll(NO_CHANGE, pairs)
  {
    hide Record, Trim;
    var update := NO_CHANGE;
    var i := 0;
    assert pairs[0..] == pairs;
    while i < |pairs|
      invariant i <= |pairs| && RecordAll(update, pairs[i..]) == RecordAll(NO_CHANGE, pairs)
    {
      var key := TrimText(pairs[i].0);
      var value := TrimText(pairs[i].1);
      var r := RecordPair(update, ToUpperCopy(key), value);
      assert pairs[i..][1..] == pairs[i + 1..];
      if !r.Requested? {
        return r;
      }
      update := r.update;
      i := i + 1;
    }
    out := Requested(update);
  }

  method RecordPair(update: Update, key: string, value: string) returns (out: Outcome)
    ensures out == Record(update, key, value)
  {
    hide Strtol;
    if ToUpperCopy(value) == "DEFAULT" {
      return Fails("UNSUPPORTED_DEFAULT", key);
    }
    if key == "HOST" {
      out := Requested(update.(host := Set(value)));
    } else if key == "PORT" {
      var parsed := if value == "" then None else Strtol(value);
      if parsed.None? || parsed.value <= 0 || parsed.value > 65535 {
        return Fails("INVALID_PORT", value);
      }
      out := Requested(update.(port := Set(parsed.value)));
    } else if key == "USER" {
      out := Requested(update.(user := Set(value)));
    } else if key == "PASS" || key == "PASSWORD" {
      out := Requested(update.(pass := Set(value)));
    } else {
      out := Fails("UNSUPPORTED_FIELD", key);
    }
  }

  // ---------------- from the message to the store ----------------

  predicate EntriesOk(pairs: seq<(string, string)>) {
    pairs != [] && forall k :: 0 <= k < |pairs| ==> KeyOk(pairs[k].0)
  }

  predicate SomeSemicolon(pairs: seq<(string, string)>) {
    exists k :: 0 <= k < |pairs| && ';' in EntryText(pairs[k])
  }

  lemma {:induction false} ArgsHave(pairs: seq<(string, string)>)
    ensures ';' in ArgsText(pairs) <==> SomeSemicolon(pairs)
    decreases |pairs|
  {
    hide EntryText;
    if |pairs| > 1 {
      var first, rest := EntryText(pairs[0]), ArgsText(pairs[1..]);
      ArgsHave(pairs[1..]);
      InConcat(" ", rest, ';');
      InConcat(first, " " + rest, ';');
      assert SomeSemicolon(pairs) <==> ';' in first || SomeSemicolon(pairs[1..]) by {
        assert forall k :: 1 <= k < |pairs| ==> pairs[k] == pairs[1..][k - 1];
      }
    }
  }

  lemma {:induction false} ArgsEnds(pairs: seq<(string, string)>)
    requires EntriesOk(pairs)
    ensures var text := ArgsText(pairs); text != "" && Tight(text) && '=' in text
    decreases |pairs|
  {
    var (key, value) := pairs[0];
    assert Matches(KeyChars, key[0]);
    EntryEnds(key, value);
    hide EntryText;
    if |pairs| > 1 {
      ArgsEnds(pairs[1..]);
      var first, rest := EntryText(pairs[0]), ArgsText(pairs[1..]);
      assert (first + (" " + rest))[0] == first[0];
    }
  }

  lemma {:induction false} EntryEnds(key: string, value: string)
    requires key != "" && !IsSpace(key[0])
    ensures var text := EntryText((key, value)); text != "" && Tight(text) && text[0] == key[0] && '=' in text
  {
    var v := QuoteIfNeeded(value);
    assert v != "" && !IsSpace(v[|v| - 1]) by { if NeedsQuotes(value) { hide NeedsQuotes; } }
    hide QuoteIfNeeded;
    var text := EntryText((key, value));
    assert text[|text| - 1] == v[|v| - 1] && text[|key|] == '=';
  }

  lemma PrefixTight(prefix: string, text: string)
    requires prefix != "" && !IsSpace(prefix[0]) && text != "" && Tight(text)
    ensures Tight(prefix + ([' '] + text)) && Tight(prefix + ([':'] + text))
  {
    hide IsSpace;
    var a, b := prefix + ([' '] + text), prefix + ([':'] + text);
    assert a[0] == prefix[0] && a[|a| - 1] == text[|text| - 1];
    assert b[0] == prefix[0] && b[|b| - 1] == text[|text| - 1];
  }

  lemma {:induction false} LineHas(text: string)
    ensures ';' in "MQTT" + ([':'] + ("SET_CONFIG" + ([' '] + text))) <==> ';' in text
  {
    InConcat([' '], text, ';');
    InConcat("SET_CONFIG", [' '] + text, ';');
    InConcat([':'], "SET_CONFIG" + ([' '] + text), ';');
    InConcat("MQTT", [':'] + ("SET_CONFIG" + ([' '] + text)), ';');
  }

  /** SET_CONFIG built from any entries is parsed as the one command it is if and only if no
      entry holds a ';'. */
  lemma {:induction false} SetConfigParsesIff(pairs: seq<(string, string)>)
    requires EntriesOk(pairs)
    ensures var line := SetConfigLine(pairs);
      Parse(line) == [ParsedCommand(line, "MQTT", SetConfigArgs(pairs))] <==> !SomeSemicolon(pairs)
  {
    ArgsEnds(pairs);
    ArgsHave(pairs);
    var text := ArgsText(pairs);
    PrefixTight("SET_CONFIG", text);
    PrefixTight("MQTT", SetConfigArgs(pairs));
    LineHas(text);
    UpperWords();
    hide ArgsText, Parse, SomeSemicolon, Tight, EntriesOk, ToUpperCopy;
    ParsesAs("MQTT", SetConfigArgs(pairs));
  }

  lemma UpperWords()
    ensures ToUpperCopy("MQTT") == "MQTT" && ToUpperCopy("SET_CONFIG") == "SET_CONFIG"
    ensures ToUpperCopy("host") == "HOST" && ToUpperCopy("port") == "PORT"
    ensures ToUpperCopy("user") == "USER" && ToUpperCopy("pass") == "PASS"
  {
  }

  lemma {:induction false} TailFound(word: string, text: string)
    requires ToUpperCopy(word) == "SET_CONFIG" && word != "" && !IsSpace(word[0]) && ' ' !in word && '\t' !in word
    requires text != "" && Tight(text)
    ensures SetConfig(word + ([' '] + text)) == TailUpdate(text)
  {
    var args := word + ([' '] + text);
    PrefixTight(word, text);
    TrimTight(args);
    TrimTight(text);
    BlankUnique(word, text);
    hide Trim, TailUpdate, ToUpperCopy, Tight, FirstBlank, IsSpace;
    assert args[..|word|] == word && args[|word| + 1..] == text;
  }

  lemma SetConfigWord(text: string)
    requires text != "" && Tight(text)
    ensures SetConfig("SET_CONFIG" + ([' '] + text)) == TailUpdate(text)
  {
    UpperWords();
    hide Tight, SetConfig, TailUpdate, ToUpperCopy;
    TailFound("SET_CONFIG", text);
  }

  /** The handler finds its arguments again. */
  lemma {:induction false} SetConfigFinds(pairs: seq<(string, string)>)
    requires EntriesOk(pairs)
    ensures SetConfig(SetConfigArgs(pairs)) == RecordAll(NO_CHANGE, pairs)
  {
    ArgsEnds(pairs);
    ArgsReadBack(pairs);
    hide ArgsText, ParseArgs, RecordAll, Tight, SetConfig;
    SetConfigWord(ArgsText(pairs));
    NoKeyword(ArgsText(pairs));
  }

  lemma BlankUnique(word: string, text: string)
    requires ' ' !in word && '\t' !in word
    ensures FirstBlank(word + ([' '] + text)) == |word|
  {
    var s := word + ([' '] + text);
    assert s[|word|] == ' ';
    assert forall j :: 0 <= j < |word| ==> s[j] in word;
  }

  lemma NoKeyword(text: string)
    requires '=' in text
    ensures ToUpperCopy(text) != "RESET" && ToUpperCopy(text) != "DEFAULTS"
  {
    var k :| 0 <= k < |text| && text[k] == '=';
    assert ToUpperCopy(text)[k] == '=';
  }

  /** What the handler should make of the request. */
  function Meant(r: Request): Update {
    Update(TextChange(r.host), if r.port.Some? && r.port.value > 0 then Set(r.port.value) else Keep,
           TextChange(r.user), TextChange(r.pass))
  }

  function TextChange(field: Option<string>): Change<string> { if field.Some? then Set(Trim(field.value)) else Keep }

  predicate Clean(field: Option<string>) { field.Some? ==> ';' !in field.value }

  predicate TrimsToDefault(field: Option<string>) { field.Some? && ToUpperCopy(Trim(field.value)) == "DEFAULT" }

  lemma RecordStep(update: Update, key: string, value: string, rest: seq<(string, string)>)
    ensures RecordAll(update, [(key, value)] + rest) ==
      var r := Record(update, ToUpperCopy(Trim(key)), Trim(value));
      if r.Requested? then RecordAll(r.update, rest) else r
  {
    hide Record, Trim, ToUpperCopy;
    assert ([(key, value)] + rest)[1..] == rest;
  }

  lemma {:induction false} RecordText(update: Update, key: string, field: Option<string>, changed: Update,
                                      rest: seq<(string, string)>)
    requires field.Some? ==> Trim(key) == key && Record(update, ToUpperCopy(key), Trim(field.value)) == Requested(changed)
    ensures RecordAll(update, TextEntry(key, field) + rest) == RecordAll(if field.None? then update else changed, rest)
  {
    hide Trim, ToUpperCopy, RecordAll, Record;
    if field.None? {
      assert [] + rest == rest;
    } else {
      RecordStep(update, key, field.value, rest);
    }
  }

  lemma {:induction false} RecordWords(update: Update, value: string)
    requires ToUpperCopy(value) != "DEFAULT"
    ensures Trim("host") == "host" && Record(update, ToUpperCopy("host"), value) == Requested(update.(host := Set(value)))
    ensures Trim("user") == "user" && Record(update, ToUpperCopy("user"), value) == Requested(update.(user := Set(value)))
    ensures Trim("pass") == "pass" && Record(update, ToUpperCopy("pass"), value) == Requested(update.(pass := Set(value)))
  {
    UpperWords();
    WordsTight();
    hide Trim, ToUpperCopy;
  }

  lemma WordsTight()
    ensures Trim("host") == "host" && Trim("user") == "user" && Trim("pass") == "pass"
  {
    hide Trim;
    TrimTight("host");
    TrimTight("user");
    TrimTight("pass");
  }

  lemma {:induction false} RecordPort(update: Update, field: Option<int>, rest: seq<(string, string)>)
    requires field.Some? ==> 0 < field.value <= 65535
    ensures RecordAll(update, PortEntry(field) + rest) ==
      RecordAll(if field.None? then update else update.(port := Set(field.value)), rest)
  {
    if field.None? {
      assert [] + rest == rest;
    } else {
      DecimalReadBack(field.value);
      DecimalTight(field.value);
      TrimTight("port");
      UpperWords();
      hide Trim, Strtol, Decimal, ToUpperCopy, RecordAll;
      RecordStep(update, "port", Decimal(field.value), rest);
    }
  }

  lemma DecimalTight(n: nat)
    ensures Trim(Decimal(n)) == Decimal(n) && ToUpperCopy(Decimal(n)) != "DEFAULT"
  {
    var text := Decimal(n);
    assert IsDigit(text[0]) && IsDigit(text[|text| - 1]);
    TrimTight(text);
    hide Trim, Decimal;
    assert ToUpperCopy(text)[0] == text[0];
  }

  lemma {:induction false} RecordHost(update: Update, field: Option<string>, rest: seq<(string, string)>)
    requires update.host == Keep && !TrimsToDefault(field)
    ensures RecordAll(update, TextEntry("host", field) + rest) == RecordAll(update.(host := TextChange(field)), rest)
  {
    if field.Some? { RecordWords(update, Trim(field.value)); }
    hide Trim, ToUpperCopy, TextEntry, Record, RecordAll;
    RecordText(update, "host", field, update.(host := TextChange(field)), rest);
  }

  lemma {:induction false} RecordUser(update: Update, field: Option<string>, rest: seq<(string, string)>)
    requires update.user == Keep && !TrimsToDefault(field)
    ensures RecordAll(update, TextEntry("user", field) + rest) == RecordAll(update.(user := TextChange(field)), rest)
  {
    if field.Some? { RecordWords(update, Trim(field.value)); }
    hide Trim, ToUpperCopy, TextEntry, Record, RecordAll;
    RecordText(update, "user", field, update.(user := TextChange(field)), rest);
  }

  lemma {:induction false} RecordPass(update: Update, field: Option<string>, rest: seq<(string, string)>)
    requires update.pass == Keep && !TrimsToDefault(field)
    ensures RecordAll(update, TextEntry("pass", field) + rest) == RecordAll(update.(pass := TextChange(field)), rest)
  {
    if field.Some? { RecordWords(update, Trim(field.value)); }
    hide Trim, ToUpperCopy, TextEntry, Record, RecordAll;
    RecordText(update, "pass", field, update.(pass := TextChange(field)), rest);
  }

  lemma {:induction false} RecordEntries(r: Request)
    requires !TrimsToDefault(r.host) && !TrimsToDefault(r.user) && !TrimsToDefault(r.pass)
    requires r.port.Some? ==> 0 < r.port.value <= 65535
    ensures RecordAll(NO_CHANGE, Entries(r)) == Requested(Meant(r))
  {
    hide TextEntry, PortEntry, RecordAll, TextChange, TrimsToDefault;
    var host, port, user, pass :=
      TextEntry("host", r.host), PortEntry(r.port), TextEntry("user", r.user), TextEntry("pass", r.pass);
    assert Entries(r) == host + (port + (user + (pass + [])));
    hide Entries;
    var u1 := NO_CHANGE.(host := TextChange(r.host));
    var u2 := if r.port.None? then u1 else u1.(port := Set(r.port.value));
    var u3 := u2.(user := TextChange(r.user));
    RecordHost(NO_CHANGE, r.host, port + (user + (pass + [])));
    RecordPort(u1, r.port, user + (pass + []));
    RecordUser(u2, r.user, pass + []);
    RecordPass(u3, r.pass, []);
    NothingToRecord(u3.(pass := TextChange(r.pass)));
  }

  lemma NothingToRecord(update: Update)
    ensures RecordAll(update, []) == Requested(update)
  {
  }

  lemma {:induction false} EntryClean(key: string, value: string)
    requires ';' !in key && ';' !in value
    ensures ';' !in EntryText((key, value))
  {
    QuotedHas(value, ';');
    hide QuoteString, NeedsQuotes;
    InConcat("=", QuoteIfNeeded(value), ';');
    InConcat(key, "=" + QuoteIfNeeded(value), ';');
  }

  predicate Sound(pairs: seq<(string, string)>) {
    forall k :: 0 <= k < |pairs| ==> KeyOk(pairs[k].0) && ';' !in EntryText(pairs[k])
  }

  lemma TextSound(key: string, field: Option<string>)
    requires key in ["host", "user", "pass"] && Clean(field)
    ensures Sound(TextEntry(key, field))
  {
    if field.Some? { EntryClean(key, field.value); }
  }

  lemma PortSound(field: Option<int>)
    ensures Sound(PortEntry(field))
  {
    if field.Some? && field.value >= 0 {
      var text := Decimal(field.value);
      assert forall k :: 0 <= k < |text| ==> IsDigit(text[k]);
      hide Decimal;
      EntryClean("port", text);
    }
  }

  lemma {:induction false} EntriesSound(r: Request)
    requires Entries(r) != [] && Clean(r.host) && Clean(r.user) && Clean(r.pass)
    ensures EntriesOk(Entries(r)) && !SomeSemicolon(Entries(r))
  {
    hide EntryText, KeyOk, TextEntry, PortEntry, Clean;
    TextSound("host", r.host);
    PortSound(r.port);
    TextSound("user", r.user);
    TextSound("pass", r.pass);
    assert Sound(Entries(r));
  }

  lemma {:induction false} DefaultRefused(update: Update, pairs: seq<(string, string)>, k: nat)
    requires k < |pairs| && ToUpperCopy(Trim(pairs[k].1)) == "DEFAULT"
    ensures !RecordAll(update, pairs).Requested?
    decreases |pairs|
  {
    hide Trim, ToUpperCopy;
    if k > 0 {
      var r := Record(update, ToUpperCopy(Trim(pairs[0].0)), Trim(pairs[0].1));
      hide Record;
      if r.Requested? { DefaultRefused(r.update, pairs[1..], k - 1); }
    }
  }

  lemma {:induction false} EntriesRefused(r: Request)
    requires TrimsToDefault(r.host) || TrimsToDefault(r.user) || TrimsToDefault(r.pass)
    ensures !RecordAll(NO_CHANGE, Entries(r)).Requested?
  {
    var pairs := Entries(r);
    var before := |TextEntry("host", r.host)| + |PortEntry(r.port)|;
    var k := if TrimsToDefault(r.host) then 0 else if TrimsToDefault(r.user) then before
             else before + |TextEntry("user", r.user)|;
    hide Trim, ToUpperCopy, RecordAll, Decimal;
    DefaultRefused(NO_CHANGE, pairs, k);
  }

  /** End to end: a request that is accepted and whose texts hold no ';' arrives as one command,
      and reaches the configuration store as exactly the update it means, with its texts
      trimmed, if and only if none of them trims to "default". */
  lemma {:induction false} SetConfigReachesStore(r: Request)
    requires BuildError(r) == "" && Clean(r.host) && Clean(r.user) && Clean(r.pass)
    ensures var commands := Parse(SetConfigLine(Entries(r)));
      && |commands| == 1 && commands[0].action == "MQTT"
      && (SetConfig(commands[0].args) == Requested(Meant(r)) <==>
          !TrimsToDefault(r.host) && !TrimsToDefault(r.user) && !TrimsToDefault(r.pass))
  {
    EntriesSound(r);
    hide Clean, TrimsToDefault, Entries, Parse, SetConfig, EntriesOk, SomeSemicolon, SetConfigArgs;
    SetConfigParsesIff(Entries(r));
    SetConfigFinds(Entries(r));
    if !TrimsToDefault(r.host) && !TrimsToDefault(r.user) && !TrimsToDefault(r.pass) {
      RecordEntries(r);
    } else {
      EntriesRefused(r);
    }
  }
}
