/** The text `json.Marshal` writes for a lock record, byte by byte, and what a reader of a torn copy of it sees. */
module LockRecord {
  import opened Basics
  import opened LockProtocol
  import opened LockJson

  // ---- Writing a record ----

  function HexDigit(n: nat): char
    requires n < 16
  {
    if n < 10 then '0' + n as char else 'a' + (n - 10) as char
  }

  function Unicode(n: nat): string
    requires n < 0x10000
  {
    ['\\', 'u', HexDigit(n / 0x1000), HexDigit(n / 0x100 % 16), HexDigit(n / 16 % 16), HexDigit(n % 16)]
  }

  /** The UTF-8 bytes of a character (section 3 of RFC 3629), a `char` below 256 for each. */
  function Utf8(ch: char): (r: string)
    ensures |r| > 0 && (ch as int < 0x80 ==> r == [ch])
    ensures ch as int >= 0x80 ==> forall k | 0 <= k < |r| :: 0x80 <= r[k] as int < 0x100
  {
    var n := ch as int;
    if n < 0x80 then [ch]
    else if n < 0x800 then [(0xC0 + n / 0x40) as char, (0x80 + n % 0x40) as char]
    else if n < 0x10000 then
      [(0xE0 + n / 0x1000) as char, (0x80 + n / 0x40 % 0x40) as char, (0x80 + n % 0x40) as char]
    else
      [(0xF0 + n / 0x40000) as char, (0x80 + n / 0x1000 % 0x40) as char, (0x80 + n / 0x40 % 0x40) as char,
       (0x80 + n % 0x40) as char]
  }

  /** One character of a string, with the escapes of encoding/json (HTML-safe form), as it stands in the file. */
  function Escape(ch: char): string {
    if ch == '"' || ch == '\\' then ['\\', ch]
    else if ch == '\n' then "\\n"
    else if ch == '\r' then "\\r"
    else if ch == '\t' then "\\t"
    else if ch as int == 8 then "\\b"
    else if ch as int == 12 then "\\f"
    else if ch < ' ' || ch == '<' || ch == '>' || ch == '&' || ch as int == 0x2028 || ch as int == 0x2029
      then Unicode(ch as int)
    else Utf8(ch)
  }

  function Escaped(t: string): string {
    if t == "" then "" else Escape(t[0]) + Escaped(t[1..])
  }

  function Quoted(t: string): string {
    "\"" + Escaped(t) + "\""
  }

  function Decimal(n: nat): (r: string)
    ensures |r| > 0
  {
    if n < 10 then ['0' + n as char] else Decimal(n / 10) + ['0' + (n % 10) as char]
  }

  function Integer(n: int): string {
    if n < 0 then "-" + Decimal(-n) else Decimal(n)
  }

  /** A member of the record. */
  datatype Field = TextField(name: string, text: string) | NumberField(name: string, n: int)

  function FieldValue(f: Field): string {
    match f
    case TextField(_, text) => Quoted(text)
    case NumberField(_, n) => Integer(n)
  }

  function Part(f: Field): string {
    (Quoted(f.name) + ":") + FieldValue(f)
  }

  /** The members from the `k`-th on, comma by comma, up to the closing brace. */
  function MembersText(fs: seq<Field>, k: nat): string
    requires k < |fs|
    decreases |fs| - k
  {
    if k + 1 == |fs| then Part(fs[k]) + "}" else Part(fs[k]) + ("," + MembersText(fs, k + 1))
  }

  function Fields(time: int -> string, i: LockInfo): seq<Field> {
    [NumberField("pid", i.pid), TextField("host", i.host), TextField("command", i.command),
     TextField("started_at", time(i.startedAt))]
  }

  /** `json.Marshal(LockInfo)`; `time` is the RFC 3339 form of a start time. */
  function Marshal(time: int -> string, i: LockInfo): string {
    "{" + MembersText(Fields(time, i), 0)
  }

  // ---- Pieces of a text ----

  /** `t` stands at position `i` of `s`. */
  ghost predicate Here(s: string, i: nat, t: string) {
    i + |t| <= |s| && forall k | 0 <= k < |t| :: s[i + k] == t[k]
  }

  lemma HereSplit(s: string, i: nat, a: string, b: string)
    ensures Here(s, i, a + b) <==> Here(s, i, a) && Here(s, i + |a|, b)
  {
    if Here(s, i, a + b) {
      assert forall k | 0 <= k < |a| :: (a + b)[k] == a[k];
      forall k | 0 <= k < |b|
        ensures s[i + |a| + k] == b[k]
      {
        assert (a + b)[|a| + k] == b[k];
      }
    }
  }

  lemma HereFirst(s: string, i: nat, t: string)
    requires Here(s, i, t)
    ensures i + |t| <= |s| && (|t| > 0 ==> s[i] == t[0])
  {
    assert |t| > 0 ==> s[i + 0] == t[0];
  }

  /** From mode `m` at `i` to mode `n` at `j`, without ever being outside everything. */
  ghost predicate Stays(s: string, i: nat, j: nat, m: Mode, n: Mode) {
    && i <= j <= |s|
    && Scan(s, i, j, m) == n
    && forall k | i <= k <= j :: Scan(s, i, k, m) != Out(0)
  }

  lemma StaysThen(s: string, i: nat, j: nat, l: nat, m: Mode, n: Mode, o: Mode)
    requires Stays(s, i, j, m, n) && Stays(s, j, l, n, o)
    ensures Stays(s, i, l, m, o)
  {
    ScanSplit(s, i, j, l, m);
    forall k | i <= k <= l
      ensures Scan(s, i, k, m) != Out(0)
    {
      if k > j {
        ScanSplit(s, i, j, k, m);
      }
    }
  }

  lemma StaysHere(s: string, i: nat, m: Mode)
    requires Here(s, i, "") && m != Out(0)
    ensures Stays(s, i, i, m, m)
  {
    assert Scan(s, i, i, m) == m;
  }

  lemma StaysStep(s: string, i: nat, m: Mode)
    requires i < |s| && m != Out(0) && Next(m, s[i]) != Out(0)
    ensures Stays(s, i, i + 1, m, Next(m, s[i]))
  {
    assert Scan(s, i, i + 1, m) == Next(m, s[i]);
  }

  lemma HexDigitIsHex(n: nat)
    requires n < 16
    ensures IsHex(HexDigit(n))
  {
  }

  lemma ReadUnicode(s: string, i: nat, n: nat)
    requires n < 0x10000 && Here(s, i, Unicode(n))
    ensures i + 6 <= |s| && s[i] == '\\' && s[i + 1] == 'u'
    ensures IsHex(s[i + 2]) && IsHex(s[i + 3]) && IsHex(s[i + 4]) && IsHex(s[i + 5])
  {
    var t := Unicode(n);
    assert s[i + 0] == t[0] && s[i + 1] == t[1] && s[i + 2] == t[2];
    assert s[i + 3] == t[3] && s[i + 4] == t[4] && s[i + 5] == t[5];
    HexDigitIsHex(n / 0x1000);
    HexDigitIsHex(n / 0x100 % 16);
    HexDigitIsHex(n / 16 % 16);
    HexDigitIsHex(n % 16);
  }

  lemma StaysUnicode(s: string, i: nat)
    requires i + 6 <= |s| && s[i] == '\\' && s[i + 1] == 'u'
    requires IsHex(s[i + 2]) && IsHex(s[i + 3]) && IsHex(s[i + 4]) && IsHex(s[i + 5])
    ensures Stays(s, i, i + 6, InString(1), InString(1))
  {
    var m := InString(1);
    StaysStep(s, i, m);
    StaysStep(s, i + 1, InEscape(1));
    StaysThen(s, i, i + 1, i + 2, m, InEscape(1), m);
    StaysStep(s, i + 2, m);
    StaysThen(s, i, i + 2, i + 3, m, m, m);
    StaysStep(s, i + 3, m);
    StaysThen(s, i, i + 3, i + 4, m, m, m);
    StaysStep(s, i + 4, m);
    StaysThen(s, i, i + 4, i + 5, m, m, m);
    StaysStep(s, i + 5, m);
    StaysThen(s, i, i + 5, i + 6, m, m, m);
  }

  predicate Plain(ch: char) {
    ch >= ' ' && ch != '"' && ch != '\\'
  }

  /** Bytes that are neither quotes nor backslashes nor controls are read one by one. */
  lemma {:induction false} ReadPlain(s: string, i: nat, j: nat)
    requires i <= j <= |s| && forall k | i <= k < j :: Plain(s[k])
    ensures Stays(s, i, j, InString(1), InString(1)) && Str(s, i) == Str(s, j)
    decreases j - i
  {
    if i == j {
      assert Here(s, i, "");
      StaysHere(s, i, InString(1));
    } else {
      ReadPlain(s, i + 1, j);
      StaysStep(s, i, InString(1));
      StaysThen(s, i, i + 1, j, InString(1), InString(1), InString(1));
    }
  }

  /** An escaped character keeps the reader inside the string, and the grammar steps over it. */
  lemma ReadEscape(s: string, i: nat, ch: char)
    requires Here(s, i, Escape(ch))
    ensures Stays(s, i, i + |Escape(ch)|, InString(1), InString(1))
    ensures Str(s, i) == Str(s, i + |Escape(ch)|)
  {
    hide Stays, Scan, Utf8;
    var t := Escape(ch);
    if IsRaw(ch) {
      RawIsPlain(ch);
      forall k | i <= k < i + |t|
        ensures Plain(s[k])
      {
        assert s[i + (k - i)] == t[k - i];
      }
      ReadPlain(s, i, i + |t|);
    } else if |t| == 2 {
      assert s[i + 0] == t[0] && s[i + 1] == t[1];
      StaysStep(s, i, InString(1));
      StaysStep(s, i + 1, InEscape(1));
      StaysThen(s, i, i + 1, i + 2, InString(1), InEscape(1), InString(1));
    } else {
      ReadUnicode(s, i, ch as int);
      StaysUnicode(s, i);
    }
  }

  /** The character is written as its bytes. */
  predicate IsRaw(ch: char) {
    Plain(ch) && ch != '<' && ch != '>' && ch != '&' && ch as int != 0x2028 && ch as int != 0x2029
  }

  lemma RawIsPlain(ch: char)
    requires IsRaw(ch)
    ensures Escape(ch) == Utf8(ch) && forall k | 0 <= k < |Utf8(ch)| :: Plain(Utf8(ch)[k])
  {
  }

  lemma {:induction false} ReadEscaped(s: string, i: nat, t: string)
    requires Here(s, i, Escaped(t))
    ensures Stays(s, i, i + |Escaped(t)|, InString(1), InString(1))
    ensures Str(s, i) == Str(s, i + |Escaped(t)|)
    decreases |t|
  {
    hide Here, Stays, Scan, Escape, Str;
    if t == "" {
      StaysHere(s, i, InString(1));
    } else {
      var a, b := Escape(t[0]), Escaped(t[1..]);
      HereSplit(s, i, a, b);
      ReadEscape(s, i, t[0]);
      ReadEscaped(s, i + |a|, t[1..]);
      StaysThen(s, i, i + |a|, i + |a| + |b|, InString(1), InString(1), InString(1));
    }
  }

  lemma QuotedSplit(s: string, i: nat, t: string)
    requires Here(s, i, Quoted(t))
    ensures Here(s, i + 1, Escaped(t)) && |Quoted(t)| == |Escaped(t)| + 2
    ensures s[i] == '"' && i + 1 + |Escaped(t)| < |s| && s[i + 1 + |Escaped(t)|] == '"'
  {
    var e := Escaped(t);
    HereSplit(s, i, "\"" + e, "\"");
    HereSplit(s, i, "\"", e);
    assert s[i + 0] == "\""[0] && s[i + 1 + |e| + 0] == "\""[0];
  }

  lemma ReadQuoted(s: string, i: nat, t: string)
    requires Here(s, i, Quoted(t))
    ensures var j := i + |Quoted(t)|;
      Stays(s, i, j, Out(1), Out(1)) && s[i] == '"' && Str(s, i + 1) == Some(j)
  {
    hide Here, Stays, Scan, Quoted, Escaped;
    QuotedSplit(s, i, t);
    var j := i + 1 + |Escaped(t)|;
    ReadEscaped(s, i + 1, t);
    StaysStep(s, i, Out(1));
    StaysThen(s, i, i + 1, j, Out(1), InString(1), InString(1));
    StaysStep(s, j, InString(1));
    StaysThen(s, i, j, j + 1, Out(1), InString(1), Out(1));
  }

  lemma {:induction false} DecimalDigits(n: nat)
    ensures forall k | 0 <= k < |Decimal(n)| :: IsDigit(Decimal(n)[k])
    ensures n > 0 ==> Decimal(n)[0] != '0'
    ensures n == 0 ==> |Decimal(n)| == 1
    decreases n
  {
    if n >= 10 {
      DecimalDigits(n / 10);
    }
  }

  lemma {:induction false} DigitsRun(s: string, i: nat, j: nat)
    requires i <= j < |s| && (forall k | i <= k < j :: IsDigit(s[k])) && !IsDigit(s[j])
    ensures Digits(s, i) == j
    decreases j - i
  {
    if i < j {
      DigitsRun(s, i + 1, j);
    }
  }

  lemma {:induction false} StaysNeutral(s: string, i: nat, j: nat)
    requires i <= j <= |s| && forall k | i <= k < j :: Neutral(s[k])
    ensures Stays(s, i, j, Out(1), Out(1))
  {
    forall k | i <= k <= j
      ensures Scan(s, i, k, Out(1)) == Out(1)
    {
      ScanNeutral(s, i, k, 1);
    }
  }

  lemma ReadInteger(s: string, i: nat, n: int)
    requires Here(s, i, Integer(n)) && i + |Integer(n)| < |s| && s[i + |Integer(n)|] in {',', '}'}
    ensures var j := i + |Integer(n)|; Stays(s, i, j, Out(1), Out(1)) && Value(s, i) == Some(j)
  {
    var d := Decimal(if n < 0 then -n else n);
    var a := if n < 0 then i + 1 else i;
    var j := i + |Integer(n)|;
    if n < 0 {
      HereSplit(s, i, "-", d);
      assert s[i + 0] == "-"[0];
    }
    DecimalDigits(if n < 0 then -n else n);
    assert Here(s, a, d);
    forall k | a <= k < j
      ensures IsDigit(s[k])
    {
      assert s[a + (k - a)] == d[k - a];
    }
    assert s[a] == d[0];
    StaysNeutral(s, i, j);
    if s[a] != '0' {
      DigitsRun(s, a, j);
    } else {
      assert n == 0;
    }
    assert Number(s, i) == Some(j);
    assert Value(s, i) == Number(s, i);
  }

  lemma ReadValue(s: string, v: nat, f: Field)
    requires Here(s, v, FieldValue(f)) && v + |FieldValue(f)| < |s| && s[v + |FieldValue(f)|] in {',', '}'}
    ensures |FieldValue(f)| > 0 && !IsSpace(s[v])
    ensures var e := v + |FieldValue(f)|; Stays(s, v, e, Out(1), Out(1)) && Value(s, v) == Some(e)
  {
    match f
    case TextField(_, text) =>
      ReadQuoted(s, v, text);
      assert Value(s, v) == Str(s, v + 1);
    case NumberField(_, n) =>
      ReadInteger(s, v, n);
      DecimalDigits(if n < 0 then -n else n);
      assert s[v + 0] == Integer(n)[0];
  }

  lemma ReadKey(s: string, i: nat, name: string)
    requires Here(s, i, Quoted(name) + ":")
    ensures var colon := i + |Quoted(name)|;
      && Stays(s, i, colon + 1, Out(1), Out(1))
      && s[i] == '"' && Str(s, i + 1) == Some(colon) && s[colon] == ':'
  {
    HereSplit(s, i, Quoted(name), ":");
    ReadQuoted(s, i, name);
    var colon := i + |Quoted(name)|;
    assert s[colon + 0] == ":"[0];
    StaysNeutral(s, colon, colon + 1);
    StaysThen(s, i, colon, colon + 1, Out(1), Out(1), Out(1));
  }

  /** What the grammar makes of a key, its value, and the comma or brace after it. */
  lemma MemberStep(s: string, i: nat, colon: nat, e: nat)
    requires i < colon < e < |s| && colon + 1 < |s|
    requires s[i] == '"' && Str(s, i + 1) == Some(colon) && s[colon] == ':'
    requires !IsSpace(s[colon + 1]) && Value(s, colon + 1) == Some(e) && s[e] in {',', '}'}
    ensures s[e] == '}' ==> Members(s, i) == Some(e + 1)
    ensures s[e] == ',' && e + 1 < |s| && !IsSpace(s[e + 1]) ==> Members(s, i) == Members(s, e + 1)
  {
    hide Value, Str;
    assert Ws(s, colon) == colon && Ws(s, colon + 1) == colon + 1 && Ws(s, e) == e;
    if s[e] == ',' && e + 1 < |s| && !IsSpace(s[e + 1]) {
      assert Ws(s, e + 1) == e + 1;
    }
  }

  /** Where the key and the value of a member stand. */
  lemma PartSplit(s: string, i: nat, f: Field)
    requires Here(s, i, Part(f))
    ensures Here(s, i, Quoted(f.name) + ":")
    ensures Here(s, i + |Quoted(f.name)| + 1, FieldValue(f))
    ensures |Part(f)| == |Quoted(f.name)| + 1 + |FieldValue(f)|
  {
    HereSplit(s, i, Quoted(f.name) + ":", FieldValue(f));
  }

  /** A member leaves the reader inside the object. */
  lemma PartStays(s: string, i: nat, f: Field)
    requires Here(s, i, Part(f)) && i + |Part(f)| < |s| && s[i + |Part(f)|] in {',', '}'}
    ensures Stays(s, i, i + |Part(f)|, Out(1), Out(1))
  {
    hide Part, Here, Stays, Value, Str, Quoted, FieldValue;
    PartSplit(s, i, f);
    var v := i + |Quoted(f.name)| + 1;
    assert Stays(s, i, v, Out(1), Out(1)) by { ReadKey(s, i, f.name); }
    assert Stays(s, v, v + |FieldValue(f)|, Out(1), Out(1)) by { ReadValue(s, v, f); }
    StaysThen(s, i, v, i + |Part(f)|, Out(1), Out(1), Out(1));
  }

  /** The grammar steps over a member. */
  lemma PartReads(s: string, i: nat, f: Field)
    requires Here(s, i, Part(f)) && i + |Part(f)| < |s| && s[i + |Part(f)|] in {',', '}'}
    ensures s[i] == '"'
    ensures var e := i + |Part(f)|;
      && (s[e] == '}' ==> Members(s, i) == Some(e + 1))
      && (s[e] == ',' && e + 1 < |s| && !IsSpace(s[e + 1]) ==> Members(s, i) == Members(s, e + 1))
  {
    hide Part, Here, Stays, Members, Value, Str;
    PartSplit(s, i, f);
    ReadKey(s, i, f.name);
    ReadValue(s, i + |Quoted(f.name)| + 1, f);
    MemberStep(s, i, i + |Quoted(f.name)|, i + |Part(f)|);
  }

  /** Members from the `k`-th on stand at `i`, comma by comma, and the closing brace ends at `end`. */
  ghost predicate MembersAt(s: string, i: nat, fs: seq<Field>, k: nat, end: nat)
    requires k < |fs|
    decreases |fs| - k
  {
    var j := i + |Part(fs[k])|;
    && Here(s, i, Part(fs[k])) && j < |s|
    && (if k + 1 == |fs| then s[j] == '}' && end == j + 1 else s[j] == ',' && MembersAt(s, j + 1, fs, k + 1, end))
  }

  lemma {:induction false} MembersStand(s: string, i: nat, fs: seq<Field>, k: nat)
    requires k < |fs| && Here(s, i, MembersText(fs, k))
    ensures MembersAt(s, i, fs, k, i + |MembersText(fs, k)|)
    decreases |fs| - k
  {
    hide Part, Here;
    var p := Part(fs[k]);
    if k + 1 == |fs| {
      HereSplit(s, i, p, "}");
      HereFirst(s, i + |p|, "}");
    } else {
      HereSplit(s, i, p, "," + MembersText(fs, k + 1));
      HereSplit(s, i + |p|, ",", MembersText(fs, k + 1));
      HereFirst(s, i + |p|, ",");
      HereFirst(s, i + |p| + 1, MembersText(fs, k + 1));
      MembersStand(s, i + |p| + 1, fs, k + 1);
    }
  }

  /** Nothing closes the object before its last brace. */
  lemma {:induction false} MembersStay(s: string, i: nat, fs: seq<Field>, k: nat, end: nat)
    requires k < |fs| && MembersAt(s, i, fs, k, end)
    ensures i < end <= |s| && Stays(s, i, end - 1, Out(1), Out(1))
    decreases |fs| - k
  {
    hide Stays, Part, Here, Scan;
    PartStays(s, i, fs[k]);
    if k + 1 < |fs| {
      var j := i + |Part(fs[k])|;
      MembersStay(s, j + 1, fs, k + 1, end);
      StaysStep(s, j, Out(1));
      StaysThen(s, i, j, j + 1, Out(1), Out(1), Out(1));
      StaysThen(s, i, j + 1, end - 1, Out(1), Out(1), Out(1));
    }
  }

  /** The grammar reads the members through to the closing brace. */
  lemma {:induction false} MembersRead(s: string, i: nat, fs: seq<Field>, k: nat, end: nat)
    requires k < |fs| && MembersAt(s, i, fs, k, end)
    ensures i < |s| && s[i] == '"' && Members(s, i) == Some(end)
    decreases |fs| - k
  {
    hide Part, Here, Members;
    PartReads(s, i, fs[k]);
    if k + 1 < |fs| {
      MembersRead(s, i + |Part(fs[k])| + 1, fs, k + 1, end);
    }
  }

  /** A text that starts with an object's brace and members: one object, open from its first character to its last. */
  lemma ReadObject(s: string, m: string, fs: seq<Field>)
    requires |fs| > 0 && m == "{" + MembersText(fs, 0) && Here(s, 0, m)
    ensures |m| >= 2 && s[0] == '{' && Value(s, 0) == Some(|m|) && Stays(s, 1, |m| - 1, Out(1), Out(1))
  {
    hide MembersText, Here, Stays, MembersAt;
    var rest := MembersText(fs, 0);
    HereSplit(s, 0, "{", rest);
    HereFirst(s, 0, "{");
    HereFirst(s, 1, rest);
    MembersStand(s, 1, fs, 0);
    MembersRead(s, 1, fs, 0, |m|);
    MembersStay(s, 1, fs, 0, |m|);
    assert Ws(s, 1) == 1;
  }

  /** A complete object is JSON, with or without a final newline. */
  lemma ObjectIsValid(s: string, m: string, fs: seq<Field>)
    requires |fs| > 0 && m == "{" + MembersText(fs, 0) && (s == m || s == m + "\n")
    ensures Valid(s)
  {
    assert Here(s, 0, m);
    ReadObject(s, m, fs);
    assert Ws(s, 0) == 0;
    if |s| > |m| {
      assert s[|m|] == '\n' && Ws(s, |m| + 1) == |m| + 1;
    }
    assert Ws(s, |m|) == |s|;
  }

  /** No proper prefix of an object is JSON. */
  lemma TornObjectIsNotValid(m: string, fs: seq<Field>, n: nat)
    requires |fs| > 0 && m == "{" + MembersText(fs, 0) && n < |m|
    ensures !Valid(m[..n])
  {
    if n > 0 {
      assert Here(m, 0, m);
      ReadObject(m, m, fs);
      ScanPrefix(m, n, 0, n, Out(0));
      assert Scan(m, 0, n, Out(0)) == Scan(m, 1, n, Out(1));
    }
    if Valid(m[..n]) {
      ValidIsClosed(m[..n]);
    }
  }

  /** A complete record is JSON, with or without a final newline. */
  lemma RecordIsValid(time: int -> string, i: LockInfo)
    ensures Valid(Marshal(time, i)) && Valid(Marshal(time, i) + "\n")
  {
    var m := Marshal(time, i);
    ObjectIsValid(m, m, Fields(time, i));
    ObjectIsValid(m + "\n", m, Fields(time, i));
  }

  /** No proper prefix of a record is JSON, whatever quotes, braces or backslashes the host and command hold. */
  lemma TornRecordIsNotValid(time: int -> string, i: LockInfo, n: nat)
    requires n < |Marshal(time, i)|
    ensures !Valid(Marshal(time, i)[..n])
  {
    TornObjectIsNotValid(Marshal(time, i), Fields(time, i), n);
  }

  lemma {:induction false} ScanPrefix(m: string, n: nat, i: nat, j: nat, mode: Mode)
    requires i <= j <= n <= |m|
    ensures Scan(m[..n], i, j, mode) == Scan(m, i, j, mode)
    decreases j - i
  {
    if i < j {
      ScanPrefix(m, n, i + 1, j, Next(mode, m[i]));
    }
  }

  /** The codec the lock relies on is sound as soon as a decoder reads back what the encoder wrote. */
  lemma RecordCodecSound(time: int -> string, decode: string -> Option<LockInfo>)
    requires forall i: LockInfo :: decode(Marshal(time, i)) == Some(i)
    requires forall i: LockInfo :: decode(Marshal(time, i) + "\n") == Some(i)
    ensures Sound(Codec(i => Marshal(time, i), s => Valid(s), decode))
  {
    var c := Codec(i => Marshal(time, i), s => Valid(s), decode);
    forall i: LockInfo
      ensures c.valid(c.marshal(i)) && c.valid(Data(c, i))
    {
      RecordIsValid(time, i);
    }
    forall i: LockInfo, n: nat | n < |c.marshal(i)|
      ensures !c.valid(c.marshal(i)[..n])
    {
      TornRecordIsNotValid(time, i, n);
    }
  }

  /** So `judgeLock` leaves a torn record alone until its file is 30 seconds old, and a live holder's complete
      record until it is 10 minutes old, on any host. */
  lemma NotStolenEarly(time: int -> string, decode: string -> Option<LockInfo>, i: LockInfo, n: nat,
                       mtime: int, host: string, now: int, processAlive: bool)
    requires decode(Marshal(time, i)) == decode(Marshal(time, i) + "\n") == Some(i)
    requires n <= |Marshal(time, i)| + 1 && i.pid > 0 && (i.host == host ==> processAlive)
    ensures var c := Codec(i => Marshal(time, i), s => Valid(s), decode);
      && (n < |Marshal(time, i)| ==>
            (JudgeStale(c, Data(c, i)[..n], mtime, host, now, processAlive) <==> now - mtime > UNPARSABLE_AGE))
      && (n >= |Marshal(time, i)| ==>
            (JudgeStale(c, Data(c, i)[..n], mtime, host, now, processAlive) <==> now - i.startedAt > STALE_AGE))
  {
    var c := Codec(i => Marshal(time, i), s => Valid(s), decode);
    var m := Marshal(time, i);
    RecordIsValid(time, i);
    if n < |m| {
      TornRecordIsNotValid(time, i, n);
      assert Data(c, i)[..n] == m[..n];
    } else {
      assert Data(c, i)[..n] == m || Data(c, i)[..n] == m + "\n";
    }
  }
}
