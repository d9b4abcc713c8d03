/** Quoting and its parsers.

    Models QuoteString and ParseCsvQuoted of lib/MotorControl/src/command/CommandUtils.cpp,
    ParseKeyValueArgs of lib/MotorControl/src/command/CommandHandlers.cpp, and Unquote and
    QuoteIfNeeded of lib/mqtt_commands/src/MqttCommandServer.cpp. */
module CommandText {
  import opened TextScan

  // ---------------- quoting ----------------

  predicate Special(c: char) { c == '"' || c == '\\' }

  function EscapeChar(c: char): string { if Special(c) then ['\\', c] else [c] }

  function Escape(s: string): string {
    if s == "" then "" else EscapeChar(s[0]) + Escape(s[1..])
  }

  function QuoteString(s: string): (r: string) { "\"" + Escape(s) + "\"" }

  predicate NeedsQuotes(s: string) {
    s == "" || exists k :: 0 <= k < |s| && (IsSpace(s[k]) || Special(s[k]) || s[k] == ',')
  }

  function QuoteIfNeeded(s: string): string { if NeedsQuotes(s) then QuoteString(s) else s }

  function Unescape(s: string, escape: bool): string {
    if s == "" then ""
    else if !escape && s[0] == '\\' then Unescape(s[1..], true)
    else [s[0]] + Unescape(s[1..], false)
  }

  predicate Quoted(s: string) { |s| >= 2 && s[0] == '"' && s[|s| - 1] == '"' }

  function Unquote(s: string): string { if Quoted(s) then Unescape(s[1..|s| - 1], false) else s }

  lemma EscapeAt(s: string, i: nat)
    requires i < |s|
    ensures Escape(s[i..]) == EscapeChar(s[i]) + Escape(s[i + 1..])
  {
    assert s[i..][1..] == s[i + 1..];
  }

  method QuoteText(s: string) returns (out: string)
    ensures out == QuoteString(s)
  {
    out := "\"";
    var i := 0;
    assert s[0..] == s;
    while i < |s|
      invariant i <= |s| && out + Escape(s[i..]) == "\"" + Escape(s)
    {
      EscapeAt(s, i);
      hide Escape;
      ghost var before, rest := out, Escape(s[i + 1..]);
      if s[i] == '"' || s[i] == '\\' {
        out := out + ['\\'];
      }
      out := out + [s[i]];
      assert out == before + EscapeChar(s[i]);
      assert before + (EscapeChar(s[i]) + rest) == out + rest;
      i := i + 1;
    }
    assert Escape(s[i..]) == "" && out == "\"" + Escape(s);
    out := out + ['"'];
  }

  method QuoteTextIfNeeded(s: string) returns (out: string)
    ensures out == QuoteIfNeeded(s)
  {
    var needs := s == "";
    var i := 0;
    while i < |s| && !needs
      invariant i <= |s|
      invariant needs ==> NeedsQuotes(s)
      invariant !needs ==> s != "" && forall k :: 0 <= k < i ==> !(IsSpace(s[k]) || Special(s[k]) || s[k] == ',')
    {
      if IsSpace(s[i]) || s[i] == '"' || s[i] == '\\' || s[i] == ',' {
        needs := true;
      }
      i := i + 1;
    }
    if !needs {
      return s;
    }
    out := QuoteText(s);
  }

  lemma UnescapeAt(s: string, i: nat, escape: bool)
    requires i < |s|
    ensures Unescape(s[i..], escape) ==
      if !escape && s[i] == '\\' then Unescape(s[i + 1..], true) else [s[i]] + Unescape(s[i + 1..], false)
  {
    assert s[i..][1..] == s[i + 1..];
  }

  method UnquoteText(s: string) returns (out: string)
    ensures out == Unquote(s)
  {
    if |s| >= 2 && s[0] == '"' && s[|s| - 1] == '"' {
      ghost var body := s[1..|s| - 1];
      out := "";
      var escape, i := false, 1;
      assert body[0..] == body;
      while i + 1 < |s|
        invariant 1 <= i <= |s| - 1 && out + Unescape(body[i - 1..], escape) == Unescape(body, false)
      {
        var c := s[i];
        UnescapeAt(body, i - 1, escape);
        hide Unescape;
        ghost var rest := body[i..];
        assert out + ([c] + Unescape(rest, false)) == out + [c] + Unescape(rest, false);
        if escape {
          out := out + [c];
          escape := false;
        } else if c == '\\' {
          escape := true;
        } else {
          out := out + [c];
        }
        i := i + 1;
      }
      assert out + "" == out;
      return;
    }
    out := s;
  }

  lemma {:induction false} UnescapeEscaped(s: string)
    ensures Unescape(Escape(s), false) == s
  {
    if s != "" {
      var e := Escape(s);
      UnescapeEscaped(s[1..]);
      if Special(s[0]) {
        assert e[1..] == [s[0]] + Escape(s[1..]) && e[1..][1..] == Escape(s[1..]);
      } else {
        assert e[1..] == Escape(s[1..]);
      }
    }
  }

  /** Unquote undoes both ways of quoting, on every string. */
  lemma {:induction false} UnquoteQuoted(s: string)
    ensures Unquote(QuoteString(s)) == s && Unquote(QuoteIfNeeded(s)) == s
  {
    UnescapeEscaped(s);
    var q := QuoteString(s);
    assert q[1..|q| - 1] == Escape(s);
    if !NeedsQuotes(s) { assert !Special(s[0]); }
  }

  // ---------------- comma-separated values ----------------

  datatype Csv = Csv(out: seq<string>, cur: string, inQuotes: bool, escape: bool)

  function CsvStep(st: Csv, c: char): Csv {
    if st.inQuotes then
      if st.escape then st.(cur := st.cur + [c], escape := false)
      else if c == '\\' then st.(escape := true)
      else if c == '"' then st.(inQuotes := false)
      else st.(cur := st.cur + [c])
    else if c == ',' then st.(out := st.out + [Trim(st.cur)], cur := "")
    else if c == '"' && Trim(st.cur) == "" then st.(cur := "", inQuotes := true)
    else st.(cur := st.cur + [c])
  }

  function CsvRun(st: Csv, s: string): Csv
    decreases |s|
  {
    if s == "" then st else CsvRun(CsvStep(st, s[0]), s[1..])
  }

  /** Text that ends inside quotes has no fields at all. */
  function CsvFields(st: Csv): seq<string> { if st.inQuotes then [] else st.out + [Trim(st.cur)] }

  function ParseCsvQuoted(s: string): seq<string> { CsvFields(CsvRun(Csv([], "", false, false), s)) }

  method ParseCsvText(s: string) returns (out: seq<string>)
    ensures out == ParseCsvQuoted(s)
  {
    out := [];
    var cur, inQuotes, escape := "", false, false;
    var i := 0;
    assert s[0..] == s;
    while i < |s|
      invariant i <= |s|
      invariant CsvRun(Csv(out, cur, inQuotes, escape), s[i..]) == CsvRun(Csv([], "", false, false), s)
    {
      var c := s[i];
      ghost var st := Csv(out, cur, inQuotes, escape);
      assert s[i..][0] == c && s[i..][1..] == s[i + 1..];
      if inQuotes {
        if escape {
          cur := cur + [c];
          escape := false;
        } else if c == '\\' {
          escape := true;
        } else if c == '"' {
          inQuotes := false;
        } else {
          cur := cur + [c];
        }
      } else {
        if c == ',' {
          var field := TrimText(cur);
          out := out + [field];
          cur := "";
        } else if c == '"' {
          var field := TrimText(cur);
          if field != "" {
            cur := cur + [c];
          } else {
            cur := "";
            inQuotes := true;
          }
        } else {
          cur := cur + [c];
        }
      }
      assert Csv(out, cur, inQuotes, escape) == CsvStep(st, c);
      i := i + 1;
    }
    if inQuotes {
      return [];
    }
    var last := TrimText(cur);
    out := out + [last];
  }

  lemma CsvHead(st: Csv, c: char, rest: string)
    ensures CsvRun(st, [c] + rest) == CsvRun(CsvStep(st, c), rest)
  {
    assert ([c] + rest)[1..] == rest;
  }

  /** One character, escaped or not, read inside quotes. */
  lemma {:induction false} CsvEscapedChar(out: seq<string>, cur: string, c: char, more: string)
    ensures CsvRun(Csv(out, cur, true, false), EscapeChar(c) + more) == CsvRun(Csv(out, cur + [c], true, false), more)
  {
    if Special(c) {
      assert EscapeChar(c) + more == ['\\'] + ([c] + more);
      hide CsvRun;
      CsvHead(Csv(out, cur, true, false), '\\', [c] + more);
      CsvHead(Csv(out, cur, true, true), c, more);
    } else {
      hide CsvRun;
      CsvHead(Csv(out, cur, true, false), c, more);
    }
  }

  /** Inside quotes, escaped text is read as it was, up to the closing quote. */
  lemma {:induction false} CsvEscaped(out: seq<string>, cur: string, f: string, rest: string)
    ensures CsvRun(Csv(out, cur, true, false), Escape(f) + (['"'] + rest)) == CsvRun(Csv(out, cur + f, false, false), rest)
    decreases |f|
  {
    if f == "" {
      CsvClosed(out, cur, f, rest);
    } else {
      hide *;
      EscapeHead(f, ['"'] + rest);
      CsvEscapedChar(out, cur, f[0], Escape(f[1..]) + (['"'] + rest));
      CsvEscaped(out, cur + [f[0]], f[1..], rest);
      FirstMoved(cur, f);
    }
  }

  lemma FirstMoved(cur: string, f: string)
    requires f != ""
    ensures cur + [f[0]] + f[1..] == cur + f
  {
  }

  lemma CsvClosed(out: seq<string>, cur: string, f: string, rest: string)
    requires f == ""
    ensures CsvRun(Csv(out, cur, true, false), Escape(f) + (['"'] + rest)) == CsvRun(Csv(out, cur + f, false, false), rest)
  {
    assert Escape(f) + (['"'] + rest) == ['"'] + rest && cur + f == cur;
    CsvHead(Csv(out, cur, true, false), '"', rest);
  }

  lemma EscapeHead(f: string, tail: string)
    requires f != ""
    ensures Escape(f) + tail == EscapeChar(f[0]) + (Escape(f[1..]) + tail)
  {
  }

  lemma {:induction false} CsvQuoted(out: seq<string>, f: string, rest: string)
    ensures CsvRun(Csv(out, "", false, false), QuoteString(f) + rest) == CsvRun(Csv(out, f, false, false), rest)
  {
    assert QuoteString(f) + rest == ['"'] + (Escape(f) + (['"'] + rest));
    CsvHead(Csv(out, "", false, false), '"', Escape(f) + (['"'] + rest));
    CsvEscaped(out, "", f, rest);
    assert "" + f == f;
  }

  function CsvLine(fields: seq<string>): string
    requires fields != []
  {
    if |fields| == 1 then QuoteString(fields[0]) else QuoteString(fields[0]) + ([','] + CsvLine(fields[1..]))
  }

  function Trimmed(fields: seq<string>): (r: seq<string>)
    ensures |r| == |fields| && forall k :: 0 <= k < |fields| ==> r[k] == Trim(fields[k])
  {
    seq(|fields|, k requires 0 <= k < |fields| => Trim(fields[k]))
  }

  lemma {:induction false} CsvLineFrom(out: seq<string>, fields: seq<string>)
    requires fields != []
    ensures CsvFields(CsvRun(Csv(out, "", false, false), CsvLine(fields))) == out + Trimmed(fields)
    decreases |fields|
  {
    hide CsvRun, CsvStep, Trimmed, QuoteString, Trim;
    TrimmedCons(fields);
    if |fields| == 1 {
      CsvQuoted(out, fields[0], "");
      CsvEnd(Csv(out, fields[0], false, false));
      assert QuoteString(fields[0]) + "" == QuoteString(fields[0]);
      assert fields[1..] == [] && Trimmed(fields) == [Trim(fields[0])];
    } else {
      CsvLineUnfold(fields);
      hide CsvLine, CsvFields;
      var first, rest := fields[0], CsvLine(fields[1..]);
      CsvQuoted(out, first, [','] + rest);
      CsvComma(out, first, rest);
      CsvLineFrom(out + [Trim(first)], fields[1..]);
      assert out + ([Trim(first)] + Trimmed(fields[1..])) == out + [Trim(first)] + Trimmed(fields[1..]);
    }
  }

  lemma CsvEnd(st: Csv)
    ensures CsvRun(st, "") == st
  {
  }

  lemma CsvComma(out: seq<string>, f: string, rest: string)
    ensures CsvRun(Csv(out, f, false, false), [','] + rest) == CsvRun(Csv(out + [Trim(f)], "", false, false), rest)
  {
    CsvHead(Csv(out, f, false, false), ',', rest);
  }

  lemma TrimmedCons(fields: seq<string>)
    requires fields != []
    ensures Trimmed(fields) == [Trim(fields[0])] + Trimmed(fields[1..])
  {
    hide Trim;
  }

  lemma CsvLineUnfold(fields: seq<string>)
    requires |fields| > 1
    ensures CsvLine(fields) == QuoteString(fields[0]) + ([','] + CsvLine(fields[1..]))
  {
  }

  /** Comma-joined quoted fields are read back, each one trimmed although it was quoted. */
  lemma {:induction false} CsvReadBack(fields: seq<string>)
    requires fields != []
    ensures ParseCsvQuoted(CsvLine(fields)) == Trimmed(fields)
  {
    CsvLineFrom([], fields);
    assert [] + Trimmed(fields) == Trimmed(fields);
  }
}
