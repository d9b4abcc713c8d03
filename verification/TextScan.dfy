/** Scanning text: spaces, splitting, case, decimal numbers.

    Models the helpers of lib/MotorControl/src/command/CommandUtils.cpp and the C library
    calls they rest on, in the "C" locale. */
module TextScan {
  import opened Wrappers

  predicate IsSpace(c: char) {
    c == ' ' || c == '\t' || c == '\n' || c == '\U{B}' || c == '\U{C}' || c == '\r'
  }

  // ---------------- trimming ----------------

  predicate AllSpace(s: string) { forall k :: 0 <= k < |s| ==> IsSpace(s[k]) }

  /** Neither end is a space. */
  predicate Tight(s: string) { s != "" ==> !IsSpace(s[0]) && !IsSpace(s[|s| - 1]) }

  function LeadSpaces(s: string): (k: nat)
    ensures k <= |s| && (forall j :: 0 <= j < k ==> IsSpace(s[j])) && (k < |s| ==> !IsSpace(s[k]))
  {
    if s == "" || !IsSpace(s[0]) then 0 else 1 + LeadSpaces(s[1..])
  }

  /** The length without the spaces at the end. */
  function KeptLength(s: string): (k: nat)
    ensures k <= |s| && (forall j :: k <= j < |s| ==> IsSpace(s[j])) && (k > 0 ==> !IsSpace(s[k - 1]))
  {
    if s == "" || !IsSpace(s[|s| - 1]) then |s| else KeptLength(s[..|s| - 1])
  }

  function SkipSpaces(s: string): string { s[LeadSpaces(s)..] }

  function DropSpaces(s: string): string { s[..KeptLength(s)] }

  function Trim(s: string): (r: string)
    ensures Tight(r)
  {
    var t := SkipSpaces(s);
    assert KeptLength(t) > 0 ==> DropSpaces(t)[0] == t[0];
    DropSpaces(t)
  }

  lemma LeadSpacesUnique(s: string, k: nat)
    requires k <= |s| && (forall j :: 0 <= j < k ==> IsSpace(s[j])) && (k < |s| ==> !IsSpace(s[k]))
    ensures LeadSpaces(s) == k
  {
  }

  lemma KeptLengthUnique(s: string, k: nat)
    requires k <= |s| && (forall j :: k <= j < |s| ==> IsSpace(s[j])) && (k > 0 ==> !IsSpace(s[k - 1]))
    ensures KeptLength(s) == k
  {
  }

  /** Trim removes exactly the spaces around the text. */
  lemma {:induction false} TrimPadded(pre: string, r: string, post: string)
    requires AllSpace(pre) && AllSpace(post) && Tight(r)
    ensures Trim(pre + r + post) == r
  {
    hide IsSpace;
    var s := pre + r + post;
    if r == "" {
      assert forall j :: 0 <= j < |s| ==> s[j] == if j < |pre| then pre[j] else post[j - |pre|];
      LeadSpacesUnique(s, |s|);
    } else {
      assert s[|pre|] == r[0];
      LeadSpacesUnique(s, |pre|);
      var t := SkipSpaces(s);
      assert t == r + post && t[|r| - 1] == r[|r| - 1];
      KeptLengthUnique(t, |r|);
    }
  }

  lemma {:induction false} TrimTight(r: string)
    requires Tight(r)
    ensures Trim(r) == r
  {
    TrimPadded("", r, "");
    assert "" + r + "" == r;
  }

  lemma KeptAt(s: string, a: nat, b: nat)
    requires a <= b <= |s| && (forall j :: b <= j < |s| ==> IsSpace(s[j])) && (b > a ==> !IsSpace(s[b - 1]))
    ensures DropSpaces(s[a..]) == s[a..b]
  {
    hide IsSpace;
    var t := s[a..];
    assert forall j :: b - a <= j < |t| ==> t[j] == s[a + j];
    KeptLengthUnique(t, b - a);
  }

  method TrimText(s: string) returns (r: string)
    ensures r == Trim(s)
  {
    var a := 0;
    while a < |s| && IsSpace(s[a])
      invariant a <= |s| && forall j :: 0 <= j < a ==> IsSpace(s[j])
    {
      a := a + 1;
    }
    LeadSpacesUnique(s, a);
    var b := |s|;
    while b > a && IsSpace(s[b - 1])
      invariant a <= b <= |s| && forall j :: b <= j < |s| ==> IsSpace(s[j])
    {
      b := b - 1;
    }
    r := s[a..b];
    KeptAt(s, a, b);
  }

  // ---------------- splitting ----------------

  /** The first position of c, or the length. */
  function Find(s: string, c: char): (k: nat)
    ensures k <= |s| && (k < |s| ==> s[k] == c) && forall j :: 0 <= j < k ==> s[j] != c
  {
    if s == "" || s[0] == c then 0 else 1 + Find(s[1..], c)
  }

  /** std::getline on a delimiter: an empty last piece is not reported. */
  function Split(s: string, delim: char): seq<string>
    decreases |s|
  {
    if s == "" then []
    else
      var k := Find(s, delim);
      if k == |s| then [s] else [s[..k]] + Split(s[k + 1..], delim)
  }

  function Join(pieces: seq<string>, delim: char): string {
    if pieces == [] then "" else if |pieces| == 1 then pieces[0]
    else pieces[0] + [delim] + Join(pieces[1..], delim)
  }

  lemma FindUnique(s: string, c: char, k: nat)
    requires k <= |s| && (forall j :: 0 <= j < k ==> s[j] != c) && (k < |s| ==> s[k] == c)
    ensures Find(s, c) == k
  {
  }

  lemma {:induction false} SplitStep(s: string, delim: char, k: nat)
    requires s != "" && k <= |s| && (forall j :: 0 <= j < k ==> s[j] != delim) && (k < |s| ==> s[k] == delim)
    ensures Split(s, delim) == if k == |s| then [s] else [s[..k]] + Split(s[k + 1..], delim)
  {
    FindUnique(s, delim, k);
  }

  lemma {:induction false} PiecesClean(s: string, delim: char)
    ensures forall k :: 0 <= k < |Split(s, delim)| ==> delim !in Split(s, delim)[k]
    ensures s != "" ==> Split(s, delim) != []
    decreases |s|
  {
    if s != "" {
      var k := Find(s, delim);
      if k < |s| { PiecesClean(s[k + 1..], delim); }
    }
  }

  /** The text, or all of it but one delimiter at its end. */
  predicate AllButOneEnd(joined: string, s: string, delim: char) {
    s == joined || s == joined + [delim]
  }

  /** Joining the pieces gives the text back, up to one delimiter at its end. */
  lemma {:induction false} SplitJoins(s: string, delim: char)
    ensures AllButOneEnd(Join(Split(s, delim), delim), s, delim)
    decreases |s|
  {
    if s != "" {
      var k := Find(s, delim);
      if k < |s| {
        var first, rest := s[..k], s[k + 1..];
        var pieces := Split(rest, delim);
        assert s == first + [delim] + rest;
        SplitJoins(rest, delim);
        PiecesClean(rest, delim);
        JoinStep(first, pieces, delim);
        assert Split(s, delim) == [first] + pieces;
        JoinsOver(first, rest, Join(pieces, delim), delim);
        hide *;
      }
    }
  }

  lemma JoinsOver(first: string, rest: string, joined: string, delim: char)
    requires AllButOneEnd(joined, rest, delim)
    ensures AllButOneEnd(first + [delim] + joined, first + [delim] + rest, delim)
    ensures rest == "" ==> AllButOneEnd(first, first + [delim] + rest, delim)
  {
    if rest != joined {
      assert first + [delim] + rest == first + [delim] + joined + [delim];
    }
    if rest == "" {
      assert first + [delim] + rest == first + [delim];
    }
  }

  lemma JoinStep(first: string, pieces: seq<string>, delim: char)
    ensures Join([first] + pieces, delim) == if pieces == [] then first else first + [delim] + Join(pieces, delim)
  {
    assert ([first] + pieces)[1..] == pieces;
  }

  method SplitText(s: string, delim: char) returns (pieces: seq<string>)
    ensures pieces == Split(s, delim)
  {
    hide Split;
    pieces := [];
    var start := 0;
    assert s[0..] == s;
    while start < |s|
      invariant start <= |s| && pieces + Split(s[start..], delim) == Split(s, delim)
      decreases |s| - start
    {
      var i := start;
      while i < |s| && s[i] != delim
        invariant start <= i <= |s| && forall j :: start <= j < i ==> s[j] != delim
      {
        i := i + 1;
      }
      ghost var rest := s[start..];
      SplitStep(rest, delim, i - start);
      assert rest[..i - start] == s[start..i];
      ghost var before := pieces;
      pieces := pieces + [s[start..i]];
      if i == |s| {
        assert rest == s[start..i];
        return;
      }
      assert rest[i - start + 1..] == s[i + 1..];
      assert before + Split(rest, delim) == pieces + Split(s[i + 1..], delim);
      start := i + 1;
    }
    SplitEmpty(s[start..], delim);
  }

  lemma SplitEmpty(s: string, delim: char)
    requires s == ""
    ensures Split(s, delim) == []
  {
  }

  // ---------------- case ----------------

  function ToUpper(c: char): char {
    if 'a' <= c <= 'z' then (c as int - 32) as char else c
  }

  function ToUpperCopy(s: string): (r: string)
    ensures |r| == |s| && forall k :: 0 <= k < |s| ==> r[k] == ToUpper(s[k])
  {
    seq(|s|, k requires 0 <= k < |s| => ToUpper(s[k]))
  }

  // ---------------- numbers ----------------

  predicate IsDigit(c: char) { '0' <= c <= '9' }

  function Digit(n: nat): (c: char)
    requires n < 10
    ensures IsDigit(c) && c as int == '0' as int + n
  {
    ('0' as int + n) as char
  }

  /** std::to_string of a number that is not negative. */
  function Decimal(n: nat): (s: string)
    ensures s != "" && forall k :: 0 <= k < |s| ==> IsDigit(s[k])
  {
    if n < 10 then [Digit(n)] else Decimal(n / 10) + [Digit(n % 10)]
  }

  function DigitValue(c: char): nat { if IsDigit(c) then c as int - '0' as int else 0 }

  /** The value of the digits, with those read before them. */
  function Value(digits: string, sofar: nat): nat {
    if digits == "" then sofar else Value(digits[1..], sofar * 10 + DigitValue(digits[0]))
  }

  function Digits(s: string): (k: nat)
    ensures k <= |s| && (forall j :: 0 <= j < k ==> IsDigit(s[j])) && (k < |s| ==> !IsDigit(s[k]))
  {
    if s == "" || !IsDigit(s[0]) then 0 else 1 + Digits(s[1..])
  }

  /** The target's long has 32 bits. */
  const LONG_MAX: int := 0x7FFF_FFFF

  function Saturate(v: int): int {
    if v > LONG_MAX then LONG_MAX else if v < -LONG_MAX - 1 then -LONG_MAX - 1 else v
  }

  /** strtol in base 10 that must use up the text, as a C string ends at its first NUL: spaces,
      a sign, digits, with the nearest long where the number is none. No digits means nothing
      was read, which only the empty text survives. */
  function Strtol(s: string): Option<int> {
    var text := s[..Find(s, '\0')];
    var t := SkipSpaces(text);
    var signed := t != "" && (t[0] == '-' || t[0] == '+');
    var u := if signed then t[1..] else t;
    var k := Digits(u);
    if k == 0 then (if text == "" then Some(0) else None)
    else if k < |u| then None
    else
      var v: int := Value(u, 0);
      Some(Saturate(if signed && t[0] == '-' then -v else v))
  }

  lemma {:induction false} ValueAppend(a: string, c: char, sofar: nat)
    ensures Value(a + [c], sofar) == Value(a, sofar) * 10 + DigitValue(c)
  {
    if a == "" {
      assert a + [c] == [c];
      assert Value([c][1..], sofar * 10 + DigitValue(c)) == sofar * 10 + DigitValue(c);
    } else {
      assert (a + [c])[1..] == a[1..] + [c];
      ValueAppend(a[1..], c, sofar * 10 + DigitValue(a[0]));
    }
  }

  lemma {:induction false} DecimalValue(n: nat)
    ensures Value(Decimal(n), 0) == n
  {
    if n < 10 {
      assert Value([Digit(n)][1..], 0 * 10 + n) == n;
    } else {
      DecimalValue(n / 10);
      ValueAppend(Decimal(n / 10), Digit(n % 10), 0);
    }
  }

  /** A number written in decimal is read back if and only if it is a long; a larger one reads as
      the largest long. */
  lemma {:induction false} DecimalReadBack(n: nat)
    ensures Strtol(Decimal(n)) == Some(if n <= LONG_MAX then n else LONG_MAX)
    ensures Strtol(Decimal(n)) == Some(n) <==> n <= LONG_MAX
  {
    DecimalValue(n);
    DigitsRead(Decimal(n));
  }

  lemma {:induction false} DigitsRead(s: string)
    requires s != "" && forall k :: 0 <= k < |s| ==> IsDigit(s[k])
    ensures Strtol(s) == Some(Saturate(Value(s, 0)))
  {
    hide Value;
    assert IsDigit(s[0]);
    assert Find(s, '\0') == |s| && s[..|s|] == s;
    LeadSpacesUnique(s, 0);
    assert s[0..] == s;
    assert Digits(s) == |s|;
  }

  // ---------------- motor ids ----------------

  function AllIds(count: nat): (ids: set<nat>)
    ensures forall k: int :: k in ids <==> 0 <= k < count
  {
    if count == 0 then {} else AllIds(count - 1) + {count - 1}
  }

  /** "ALL" in any case names every motor, a number below the count that motor. */
  function ParseIdMask(token: string, maxMotors: nat): Option<set<nat>> {
    if ToUpperCopy(token) == "ALL" then Some(AllIds(if maxMotors >= 32 then 32 else maxMotors))
    else if token == "" then None
    else match Strtol(token)
      case Some(id) => if 0 <= id < maxMotors then Some({id}) else None
      case None => None
  }

  /** A motor's own decimal number names exactly that motor, and out of range no motor; the
      count is eight bits wide. */
  lemma {:induction false} IdNamesItsMotor(id: nat, maxMotors: nat)
    requires maxMotors < 256
    ensures ParseIdMask(Decimal(id), maxMotors) == if id < maxMotors then Some({id}) else None
  {
    DecimalReadBack(id);
    var s := Decimal(id);
    assert IsDigit(s[0]) && ToUpperCopy(s)[0] == s[0];
  }
}
