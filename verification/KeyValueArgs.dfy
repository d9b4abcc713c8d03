/** key=value arguments: the parser of lib/MotorControl/src/command/CommandHandlers.cpp
    (ParseKeyValueArgs) and the text that inverts it. */
module KeyValueArgs {
  import opened Wrappers
  import opened TextScan
  import opened CommandText

  /** The four runs of characters the parser skips or takes. */
  datatype Kind = Separators | Spaces | KeyChars | PlainChars

  predicate Matches(kind: Kind, c: char) {
    match kind
    case Separators => IsSpace(c) || c == ','
    case Spaces => IsSpace(c)
    case KeyChars => c != '=' && !IsSpace(c) && c != ','
    case PlainChars => !IsSpace(c) && c != ','
  }

  function Span(s: string, kind: Kind): (k: nat)
    ensures k <= |s| && (forall j :: 0 <= j < k ==> Matches(kind, s[j])) && (k < |s| ==> !Matches(kind, s[k]))
  {
    if s == "" || !Matches(kind, s[0]) then 0 else 1 + Span(s[1..], kind)
  }

  lemma SpanUnique(s: string, kind: Kind, k: nat)
    requires k <= |s| && (forall j :: 0 <= j < k ==> Matches(kind, s[j])) && (k < |s| ==> !Matches(kind, s[k]))
    ensures Span(s, kind) == k
  {
    hide Matches;
  }

  function After(s: string, kind: Kind): string { s[Span(s, kind)..] }

  /** The quoted value from behind its opening quote, and what follows the closing one. */
  function ReadQuoted(s: string, escape: bool): (r: Option<(string, string)>)
    ensures r.Some? ==> |r.value.1| < |s|
  {
    if s == "" then None
    else if !escape && s[0] == '\\' then ReadQuoted(s[1..], true)
    else if !escape && s[0] == '"' then Some(("", s[1..]))
    else match ReadQuoted(s[1..], false)
      case Some(r) => Some(([s[0]] + r.0, r.1))
      case None => None
  }

  function ReadValue(s: string): (r: Option<(string, string)>)
    ensures r.Some? ==> |r.value.1| <= |s|
  {
    if s != "" && s[0] == '"' then ReadQuoted(s[1..], false)
    else Some((s[..Span(s, PlainChars)], After(s, PlainChars)))
  }

  datatype Entry = End | Entry(key: string, value: string, rest: string) | Wrong(error: string)

  /** What follows a key: spaces, '=', spaces, value. */
  function ValuePart(key: string, u: string): (e: Entry)
    ensures e.Entry? ==> |e.rest| < |u| && e.key == key && key != ""
  {
    if u == "" || u[0] != '=' then Wrong("expected key=value")
    else match ReadValue(After(u[1..], Spaces))
      case None => Wrong("unterminated quote")
      case Some(r) => if key == "" then Wrong("missing key") else Entry(key, r.0, r.1)
  }

  function EntryOf(t: string): (e: Entry)
    ensures e.Entry? ==> |e.rest| < |t|
  {
    if t == "" then End
    else
      var k := Span(t, KeyChars);
      ValuePart(Trim(t[..k]), After(t[k..], Spaces))
  }

  function NextEntry(s: string): (e: Entry)
    ensures e.Entry? ==> |e.rest| < |s|
  {
    EntryOf(After(s, Separators))
  }

  datatype Parsed = Pairs(pairs: seq<(string, string)>) | Bad(error: string)

  function Prepend(pairs: seq<(string, string)>, p: Parsed): Parsed {
    match p
    case Pairs(more) => Pairs(pairs + more)
    case Bad(error) => p
  }

  function ParseArgs(s: string): Parsed
    decreases |s|
  {
    match NextEntry(s)
    case End => Pairs([])
    case Wrong(error) => Bad(error)
    case Entry(key, value, rest) => Prepend([(key, value)], ParseArgs(rest))
  }

  // ---------------- the parser's loops ----------------

  method Skip(s: string, pos: nat, kind: Kind) returns (end: nat)
    requires pos <= |s|
    ensures pos <= end <= |s| && end == pos + Span(s[pos..], kind) && s[end..] == After(s[pos..], kind)
  {
    hide Matches;
    end := pos;
    while end < |s| && Matches(kind, s[end])
      invariant pos <= end <= |s| && forall j :: pos <= j < end ==> Matches(kind, s[j])
    {
      end := end + 1;
    }
    SpanUnique(s[pos..], kind, end - pos);
  }

  lemma ReadQuotedAt(s: string, i: nat, escape: bool)
    requires i < |s|
    ensures ReadQuoted(s[i..], escape) ==
      if !escape && s[i] == '\\' then ReadQuoted(s[i + 1..], true)
      else if !escape && s[i] == '"' then Some(("", s[i + 1..]))
      else match ReadQuoted(s[i + 1..], false)
        case Some(r) => Some(([s[i]] + r.0, r.1))
        case None => None
  {
    assert s[i..][1..] == s[i + 1..];
  }

  function Longer(value: string, r: Option<(string, string)>): Option<(string, string)> {
    match r
    case Some(p) => Some((value + p.0, p.1))
    case None => None
  }

  lemma LongerAppend(value: string, c: char, r: Option<(string, string)>)
    ensures Longer(value, Longer([c], r)) == Longer(value + [c], r)
  {
    if r.Some? { assert value + ([c] + r.value.0) == value + [c] + r.value.0; }
  }

  method TakeQuoted(s: string, start: nat) returns (closed: bool, value: string, pos: nat)
    requires start <= |s|
    ensures start <= pos <= |s|
    ensures ReadQuoted(s[start..], false) == if closed then Some((value, s[pos..])) else None
  {
    closed, value, pos := false, "", start;
    var escape := false;
    assert Longer("", ReadQuoted(s[start..], false)) == ReadQuoted(s[start..], false) by {
      if ReadQuoted(s[start..], false).Some? {
        assert "" + ReadQuoted(s[start..], false).value.0 == ReadQuoted(s[start..], false).value.0;
      }
    }
    while pos < |s|
      invariant start <= pos <= |s| && !closed
      invariant Longer(value, ReadQuoted(s[pos..], escape)) == ReadQuoted(s[start..], false)
    {
      var c := s[pos];
      ReadQuotedAt(s, pos, escape);
      hide ReadQuoted;
      pos := pos + 1;
      if escape {
        LongerAppend(value, c, ReadQuoted(s[pos..], false));
        value := value + [c];
        escape := false;
        continue;
      }
      if c == '\\' {
        escape := true;
        continue;
      }
      if c == '"' {
        closed := true;
        assert value + "" == value;
        break;
      }
      LongerAppend(value, c, ReadQuoted(s[pos..], false));
      value := value + [c];
    }
  }

  method TakeValue(s: string, start: nat) returns (closed: bool, value: string, pos: nat)
    requires start <= |s|
    ensures start <= pos <= |s|
    ensures ReadValue(s[start..]) == if closed then Some((value, s[pos..])) else None
  {
    hide ReadQuoted;
    if start < |s| && s[start] == '"' {
      assert s[start..][1..] == s[start + 1..];
      closed, value, pos := TakeQuoted(s, start + 1);
    } else {
      pos := Skip(s, start, PlainChars);
      closed, value := true, s[start..pos];
      assert s[start..][..pos - start] == value;
    }
  }

  method TakeValuePart(s: string, start: nat, key: string) returns (e: Entry, pos: nat)
    requires start <= |s|
    ensures start <= pos <= |s| && e == ValuePart(key, s[start..]) && (e.Entry? ==> e.rest == s[pos..])
  {
    hide ReadValue;
    pos := start;
    if pos >= |s| || s[pos] != '=' {
      return Wrong("expected key=value"), pos;
    }
    assert s[pos..][1..] == s[pos + 1..];
    pos := pos + 1;
    pos := Skip(s, pos, Spaces);
    var closed, value;
    closed, value, pos := TakeValue(s, pos);
    if !closed {
      return Wrong("unterminated quote"), pos;
    }
    if key == "" {
      return Wrong("missing key"), pos;
    }
    e := Entry(key, value, s[pos..]);
  }

  method TakeEntry(s: string, start: nat) returns (e: Entry, pos: nat)
    requires start <= |s|
    ensures start <= pos <= |s| && e == NextEntry(s[start..]) && (e.Entry? ==> e.rest == s[pos..])
  {
    hide ValuePart, Trim, After;
    pos := Skip(s, start, Separators);
    if pos >= |s| {
      return End, pos;
    }
    var keyStart := pos;
    ghost var t := s[keyStart..];
    pos := Skip(s, pos, KeyChars);
    var keyEnd := pos;
    assert t[keyEnd - keyStart..] == s[keyEnd..] && t[..keyEnd - keyStart] == s[keyStart..keyEnd];
    pos := Skip(s, pos, Spaces);
    var key := TrimText(s[keyStart..keyEnd]);
    e, pos := TakeValuePart(s, pos, key);
  }

  method ParseKeyValueArgs(input: string) returns (ok: bool, pairs: seq<(string, string)>, error: string)
    ensures ParseArgs(input) == if ok then Pairs(pairs) else Bad(error)
    ensures ok ==> error == ""
  {
    hide NextEntry;
    ok, pairs, error := true, [], "";
    var pos := 0;
    assert input[0..] == input;
    NothingBefore(ParseArgs(input));
    while pos < |input|
      invariant pos <= |input| && Prepend(pairs, ParseArgs(input[pos..])) == ParseArgs(input)
      decreases |input| - pos
    {
      var e, next := TakeEntry(input, pos);
      match e {
        case End =>
          return;
        case Wrong(message) =>
          return false, pairs, message;
        case Entry(key, value, rest) =>
          PrependMore(pairs, (key, value), ParseArgs(rest));
          pairs := pairs + [(key, value)];
          pos := next;
      }
    }
    NothingLeft(input[pos..]);
  }

  lemma NothingBefore(p: Parsed)
    ensures Prepend([], p) == p
  {
    if p.Pairs? { assert [] + p.pairs == p.pairs; }
  }

  lemma NothingLeft(s: string)
    requires s == ""
    ensures ParseArgs(s) == Pairs([])
  {
  }

  lemma PrependMore(pairs: seq<(string, string)>, pair: (string, string), p: Parsed)
    ensures Prepend(pairs, Prepend([pair], p)) == Prepend(pairs + [pair], p)
  {
    if p.Pairs? { assert pairs + ([pair] + p.pairs) == pairs + [pair] + p.pairs; }
  }

  // ---------------- what the parser inverts ----------------

  predicate KeyOk(key: string) { key != "" && forall j :: 0 <= j < |key| ==> Matches(KeyChars, key[j]) }

  function EntryText(pair: (string, string)): string { pair.0 + ("=" + QuoteIfNeeded(pair.1)) }

  /** key=value entries with one space between them. */
  function ArgsText(pairs: seq<(string, string)>): string {
    if pairs == [] then ""
    else if |pairs| == 1 then EntryText(pairs[0])
    else EntryText(pairs[0]) + (" " + ArgsText(pairs[1..]))
  }

  /** Where the text of an entry may stop. */
  predicate Stops(tail: string) { tail == "" || tail[0] == ' ' }

  lemma {:induction false} QuotedReadBack(value: string, tail: string)
    ensures ReadQuoted(Escape(value) + (['"'] + tail), false) == Some((value, tail))
  {
    var end := ['"'] + tail;
    if value == "" {
      assert Escape(value) + end == end && end[1..] == tail;
    } else {
      QuotedReadBack(value[1..], tail);
      EscapeHead(value, end);
      var more := Escape(value[1..]) + end;
      hide Escape;
      ReadEscapedChar(value[0], more);
      assert [value[0]] + value[1..] == value;
    }
  }

  lemma ReadEscapedChar(c: char, more: string)
    ensures ReadQuoted(EscapeChar(c) + more, false) == Longer([c], ReadQuoted(more, false))
  {
    var s := EscapeChar(c) + more;
    if Special(c) {
      assert s[1..][1..] == more;
    } else {
      assert s[1..] == more;
    }
  }

  lemma {:induction false} PlainReadBack(value: string, tail: string)
    requires Stops(tail) && !NeedsQuotes(value)
    ensures ReadValue(value + tail) == Some((value, tail)) && !IsSpace(value[0])
  {
    var s := value + tail;
    assert s[0] == value[0] && !Special(value[0]);
    assert forall j :: 0 <= j < |value| ==> s[j] == value[j];
    assert tail != "" ==> s[|value|] == ' ';
    SpanUnique(s, PlainChars, |value|);
    assert s[..|value|] == value && s[|value|..] == tail;
  }

  lemma {:induction false} ValueReadBack(value: string, tail: string)
    requires Stops(tail)
    ensures ReadValue(QuoteIfNeeded(value) + tail) == Some((value, tail))
    ensures QuoteIfNeeded(value) != "" && !IsSpace(QuoteIfNeeded(value)[0])
  {
    if NeedsQuotes(value) {
      hide NeedsQuotes;
      QuotedReadBack(value, tail);
      assert (QuoteString(value) + tail)[1..] == Escape(value) + (['"'] + tail);
    } else {
      PlainReadBack(value, tail);
    }
  }

  lemma {:induction false} KeyTight(key: string)
    requires forall j :: 0 <= j < |key| ==> Matches(KeyChars, key[j])
    ensures Trim(key) == key
  {
    if key != "" { assert Matches(KeyChars, key[0]) && Matches(KeyChars, key[|key| - 1]); }
    TrimTight(key);
  }

  lemma {:induction false} EntryReadBack(pair: (string, string), tail: string)
    requires KeyOk(pair.0) && Stops(tail)
    ensures NextEntry(EntryText(pair) + tail) == Entry(pair.0, pair.1, tail)
  {
    var (key, value) := pair;
    var v := QuoteIfNeeded(value) + tail;
    var s := key + ("=" + v);
    ValueReadBack(value, tail);
    KeyTight(key);
    hide QuoteIfNeeded, ReadValue, Trim;
    assert EntryText(pair) + tail == s;
    assert Matches(KeyChars, key[0]) && s[0] == key[0];
    SpanUnique(s, Separators, 0);
    SpanUnique(s, KeyChars, |key|);
    assert s[0..] == s && s[..|key|] == key && s[|key|..] == "=" + v && ("=" + v)[1..] == v;
    SpanUnique("=" + v, Spaces, 0);
    assert v[0] == QuoteIfNeeded(value)[0];
    SpanUnique(v, Spaces, 0);
    assert v[0..] == v && ("=" + v)[0..] == "=" + v;
  }

  lemma {:induction false} LeadingSpace(s: string)
    ensures ParseArgs(" " + s) == ParseArgs(s)
  {
    SpaceSkipped(s);
    hide EntryOf, After;
  }

  lemma SpaceSkipped(s: string)
    ensures After(" " + s, Separators) == After(s, Separators)
  {
    var k := Span(s, Separators);
    assert (" " + s)[1..] == s;
    assert Span(" " + s, Separators) == 1 + k;
    assert (" " + s)[k + 1..] == s[k..];
  }

  lemma ParseStep(s: string, pair: (string, string), rest: string)
    requires NextEntry(s) == Entry(pair.0, pair.1, rest)
    ensures ParseArgs(s) == Prepend([pair], ParseArgs(rest))
  {
    hide NextEntry;
  }

  lemma {:induction false} LastReadBack(pair: (string, string))
    requires KeyOk(pair.0)
    ensures ParseArgs(EntryText(pair)) == Pairs([pair])
  {
    hide KeyOk, NextEntry;
    EntryReadBack(pair, "");
    assert EntryText(pair) + "" == EntryText(pair);
    ParseStep(EntryText(pair), pair, "");
    NothingLeft("");
    assert [pair] + [] == [pair];
  }

  lemma {:induction false} MoreReadBack(pair: (string, string), text: string, more: seq<(string, string)>)
    requires KeyOk(pair.0) && ParseArgs(text) == Pairs(more)
    ensures ParseArgs(EntryText(pair) + (" " + text)) == Pairs([pair] + more)
  {
    hide KeyOk, NextEntry, ParseArgs, EntryText;
    EntryReadBack(pair, " " + text);
    ParseStep(EntryText(pair) + (" " + text), pair, " " + text);
    LeadingSpace(text);
  }

  /** For all values and all sound keys, parsing gives the entries back exactly. */
  lemma {:induction false} ArgsReadBack(pairs: seq<(string, string)>)
    requires forall k :: 0 <= k < |pairs| ==> KeyOk(pairs[k].0)
    ensures ParseArgs(ArgsText(pairs)) == Pairs(pairs)
    decreases |pairs|
  {
    hide ParseArgs, KeyOk, EntryText;
    if pairs == [] {
      NothingLeft("");
    } else if |pairs| == 1 {
      LastReadBack(pairs[0]);
      assert [pairs[0]] == pairs;
    } else {
      ArgsReadBack(pairs[1..]);
      MoreReadBack(pairs[0], ArgsText(pairs[1..]), pairs[1..]);
      assert [pairs[0]] + pairs[1..] == pairs;
    }
  }

  lemma {:induction false} EntryKeyOk(s: string)
    ensures NextEntry(s).Entry? ==> KeyOk(NextEntry(s).key)
  {
    hide ReadValue;
    var t := After(s, Separators);
    if t != "" { KeyTight(t[..Span(t, KeyChars)]); }
  }

  lemma {:induction false} ParsedKeysOk(s: string)
    ensures ParseArgs(s).Pairs? ==> forall k :: 0 <= k < |ParseArgs(s).pairs| ==> KeyOk(ParseArgs(s).pairs[k].0)
    decreases |s|
  {
    hide NextEntry, KeyOk;
    EntryKeyOk(s);
    var e := NextEntry(s);
    if e.Entry? { ParsedKeysOk(e.rest); }
  }

  /** The parser inverts the text of a list of entries if and only if every key is nonempty and
      free of spaces, '=' and ','; nothing is asked of the values. */
  lemma {:induction false} ArgsReadBackIff(pairs: seq<(string, string)>)
    ensures ParseArgs(ArgsText(pairs)) == Pairs(pairs) <==> forall k :: 0 <= k < |pairs| ==> KeyOk(pairs[k].0)
  {
    ParsedKeysOk(ArgsText(pairs));
    if forall k :: 0 <= k < |pairs| ==> KeyOk(pairs[k].0) { ArgsReadBack(pairs); }
  }
}
