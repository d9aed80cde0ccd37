/** A lock record can be read back: different holders are written differently, so that a decoder as `LockRecord` asks
    for exists, and the lock's assumptions on its codec can be met. */
module LockCodec {
  import opened Basics
  import opened LockProtocol
  import opened LockJson
  import opened LockRecord

  // ---- Characters ----

  function ByteAt(t: string, k: nat): int {
    if k < |t| then t[k] as int else 0
  }

  function HexValue(b: int): int {
    if b <= '9' as int then b - '0' as int else b - 'a' as int + 10
  }

  /** The character that stands, escaped, at the start of `t`. */
  function Code(t: string): int {
    var a, b := ByteAt(t, 0), ByteAt(t, 1);
    if a == '\\' as int then
      if b == 'n' as int then 10
      else if b == 'r' as int then 13
      else if b == 't' as int then 9
      else if b == 'b' as int then 8
      else if b == 'f' as int then 12
      else if b == 'u' as int then
        0x1000 * HexValue(ByteAt(t, 2)) + 0x100 * HexValue(ByteAt(t, 3)) + 0x10 * HexValue(ByteAt(t, 4))
        + HexValue(ByteAt(t, 5))
      else b
    else if a < 0x80 then a
    else if a < 0xE0 then (a - 0xC0) * 0x40 + (b - 0x80)
    else if a < 0xF0 then (a - 0xE0) * 0x1000 + (b - 0x80) * 0x40 + (ByteAt(t, 2) - 0x80)
    else (a - 0xF0) * 0x40000 + (b - 0x80) * 0x1000 + (ByteAt(t, 2) - 0x80) * 0x40 + (ByteAt(t, 3) - 0x80)
  }

  lemma HexBack(n: nat)
    requires n < 16
    ensures HexValue(HexDigit(n) as int) == n
  {
  }

  lemma HexDigits(n: nat)
    requires n < 0x10000
    ensures n == 0x1000 * (n / 0x1000) + 0x100 * (n / 0x100 % 16) + 0x10 * (n / 16 % 16) + n % 16
  {
    assert n / 0x100 == n / 0x1000 * 16 + n / 0x100 % 16;
    assert n / 16 == n / 0x100 * 16 + n / 16 % 16;
  }

  lemma UnicodeBack(n: nat, r: string)
    requires n < 0x10000
    ensures Code(Unicode(n) + r) == n
  {
    var a, b, c, d := n / 0x1000, n / 0x100 % 16, n / 16 % 16, n % 16;
    HexDigits(n);
    HexBack(a);
    HexBack(b);
    HexBack(c);
    HexBack(d);
    CodeOfHex(HexDigit(a), HexDigit(b), HexDigit(c), HexDigit(d), r);
    hide Code, HexDigit, HexValue;
  }

  lemma CodeOfHex(a: char, b: char, c: char, d: char, r: string)
    ensures Code(['\\', 'u', a, b, c, d] + r)
         == 0x1000 * HexValue(a as int) + 0x100 * HexValue(b as int) + 0x10 * HexValue(c as int) + HexValue(d as int)
  {
    hide HexValue;
    var t := ['\\', 'u', a, b, c, d] + r;
    assert t[0] == '\\' && t[1] == 'u' && t[2] == a && t[3] == b && t[4] == c && t[5] == d;
  }

  lemma Utf8Back(ch: char, r: string)
    requires ch != '\\'
    ensures Code(Utf8(ch) + r) == ch as int
  {
    var u, t := Utf8(ch), Utf8(ch) + r;
    assert forall k | 0 <= k < |u| :: t[k] == u[k];
    var n := ch as int;
    if 0x10000 <= n {
      assert n / 0x40 == n / 0x1000 * 0x40 + n / 0x40 % 0x40;
      assert n / 0x1000 == n / 0x40000 * 0x40 + n / 0x1000 % 0x40;
    } else if 0x800 <= n {
      assert n / 0x40 == n / 0x1000 * 0x40 + n / 0x40 % 0x40;
    }
  }

  lemma EscapeBack(ch: char, r: string)
    ensures Code(Escape(ch) + r) == ch as int
  {
    var t := Escape(ch) + r;
    if Escape(ch) == Utf8(ch) && ch != '\\' {
      Utf8Back(ch, r);
    } else if |Escape(ch)| == 2 {
      assert t[0] == Escape(ch)[0] && t[1] == Escape(ch)[1];
    } else {
      UnicodeBack(ch as int, r);
    }
  }

  lemma {:induction false} EscapedInjective(t: string, u: string)
    requires Escaped(t) == Escaped(u)
    ensures t == u
  {
    hide Escape, Code;
    if t == "" {
      assert u == "" by { NotEmpty(u); }
    } else if u == "" {
      NotEmpty(t);
    } else {
      EscapeBack(t[0], Escaped(t[1..]));
      EscapeBack(u[0], Escaped(u[1..]));
      assert t[0] as int == u[0] as int;
      var e := Escape(t[0]);
      assert (e + Escaped(t[1..]))[|e|..] == Escaped(t[1..]) && (e + Escaped(u[1..]))[|e|..] == Escaped(u[1..]);
      EscapedInjective(t[1..], u[1..]);
      assert t == [t[0]] + t[1..] && u == [u[0]] + u[1..];
    }
  }

  lemma NotEmpty(t: string)
    ensures t != "" ==> Escaped(t) != ""
  {
  }

  lemma QuotedInjective(t: string, u: string)
    requires Quoted(t) == Quoted(u)
    ensures t == u
  {
    assert Quoted(t)[1..|Quoted(t)| - 1] == Escaped(t) && Quoted(u)[1..|Quoted(u)| - 1] == Escaped(u);
    EscapedInjective(t, u);
  }

  lemma {:induction false} DecimalInjective(n: nat, m: nat)
    requires Decimal(n) == Decimal(m)
    ensures n == m
    decreases n
  {
    var d := Decimal(n);
    if n >= 10 && m >= 10 {
      assert d[..|d| - 1] == Decimal(n / 10) == Decimal(m / 10);
      assert d[|d| - 1] == '0' + (n % 10) as char == '0' + (m % 10) as char;
      DecimalInjective(n / 10, m / 10);
    }
  }

  lemma IntegerInjective(n: int, m: int)
    requires Integer(n) == Integer(m)
    ensures n == m
  {
    DecimalDigits(if n < 0 then -n else n);
    DecimalDigits(if m < 0 then -m else m);
    assert n < 0 ==> Integer(n)[0] == '-' && Integer(n)[1..] == Decimal(-n);
    assert m < 0 ==> Integer(m)[0] == '-' && Integer(m)[1..] == Decimal(-m);
    DecimalInjective(if n < 0 then -n else n, if m < 0 then -m else m);
  }

  // ---- Members ----

  predicate SameKind(f: Field, g: Field) {
    f.name == g.name && f.TextField? == g.TextField?
  }

  lemma ValueInjective(f: Field, g: Field)
    requires SameKind(f, g) && FieldValue(f) == FieldValue(g)
    ensures f == g
  {
    if f.TextField? {
      QuotedInjective(f.text, g.text);
    } else {
      IntegerInjective(f.n, g.n);
    }
  }

  /** Texts of the same length at the same place are the same. */
  lemma SameHere(s: string, i: nat, a: string, b: string)
    requires Here(s, i, a) && Here(s, i, b) && |a| == |b|
    ensures a == b
  {
    forall k | 0 <= k < |a|
      ensures a[k] == b[k]
    {
      assert s[i + k] == a[k] && s[i + k] == b[k];
    }
  }

  /** A member ends where the grammar says, so two members of one kind at one place are the same. */
  lemma PartInjective(s: string, i: nat, f: Field, g: Field)
    requires SameKind(f, g)
    requires Here(s, i, Part(f)) && i + |Part(f)| < |s| && s[i + |Part(f)|] in {',', '}'}
    requires Here(s, i, Part(g)) && i + |Part(g)| < |s| && s[i + |Part(g)|] in {',', '}'}
    ensures f == g
  {
    hide Part, Here, FieldValue, Quoted, Value;
    PartSplit(s, i, f);
    PartSplit(s, i, g);
    var v := i + |Quoted(f.name)| + 1;
    ReadValue(s, v, f);
    ReadValue(s, v, g);
    SameHere(s, v, FieldValue(f), FieldValue(g));
    ValueInjective(f, g);
  }

  lemma {:induction false} MembersInjective(s: string, i: nat, fs: seq<Field>, gs: seq<Field>, k: nat, m: nat, n: nat)
    requires k < |fs| == |gs| && forall j | k <= j < |fs| :: SameKind(fs[j], gs[j])
    requires MembersAt(s, i, fs, k, m) && MembersAt(s, i, gs, k, n)
    ensures forall j | k <= j < |fs| :: fs[j] == gs[j]
    decreases |fs| - k
  {
    hide Part, Here;
    PartInjective(s, i, fs[k], gs[k]);
    if k + 1 < |fs| {
      MembersInjective(s, i + |Part(fs[k])| + 1, fs, gs, k + 1, m, n);
    }
  }

  // ---- Records ----

  ghost predicate Injective(time: int -> string) {
    forall a, b | time(a) == time(b) :: a == b
  }

  /** Different holders are written differently. */
  lemma MarshalInjective(time: int -> string, i: LockInfo, j: LockInfo)
    requires Injective(time) && Marshal(time, i) == Marshal(time, j)
    ensures i == j
  {
    hide MembersText, Here, MembersAt, Injective, Fields;
    var m, fs, gs := Marshal(time, i), Fields(time, i), Fields(time, j);
    FieldsMatch(time, i, j);
    RecordStands(m, fs);
    RecordStands(m, gs);
    MembersInjective(m, 1, fs, gs, 0, |m|, |m|);
    FieldsInjective(time, i, j);
  }

  lemma RecordStands(m: string, fs: seq<Field>)
    requires |fs| > 0 && m == "{" + MembersText(fs, 0)
    ensures MembersAt(m, 1, fs, 0, |m|)
  {
    hide MembersText, Here, MembersAt;
    HereWhole(m);
    HereSplit(m, 0, "{", MembersText(fs, 0));
    MembersStand(m, 1, fs, 0);
  }

  lemma HereWhole(m: string)
    ensures Here(m, 0, m)
  {
  }

  lemma FieldsMatch(time: int -> string, i: LockInfo, j: LockInfo)
    ensures |Fields(time, i)| == |Fields(time, j)| == 4
    ensures forall k | 0 <= k < 4 :: SameKind(Fields(time, i)[k], Fields(time, j)[k])
  {
  }

  lemma FieldsInjective(time: int -> string, i: LockInfo, j: LockInfo)
    requires Injective(time) && forall k | 0 <= k < 4 :: Fields(time, i)[k] == Fields(time, j)[k]
    ensures i == j
  {
    var fs, gs := Fields(time, i), Fields(time, j);
    assert fs[0] == gs[0] && fs[1] == gs[1] && fs[2] == gs[2] && fs[3] == gs[3];
    SameTime(time, i.startedAt, j.startedAt);
  }

  lemma SameTime(time: int -> string, a: int, b: int)
    requires Injective(time) && time(a) == time(b)
    ensures a == b
  {
  }

  lemma {:induction false} LastBrace(fs: seq<Field>, k: nat)
    requires k < |fs|
    ensures var t := MembersText(fs, k); |t| > 0 && t[|t| - 1] == '}'
    decreases |fs| - k
  {
    hide Part;
    if k + 1 < |fs| {
      LastBrace(fs, k + 1);
    }
  }

  ghost predicate Reads(time: int -> string, s: string, i: LockInfo) {
    s == Marshal(time, i) || s == Marshal(time, i) + "\n"
  }

  /** The decoder that reads exactly what the encoder writes, with or without its final newline. */
  ghost function Decoded(time: int -> string, s: string): Option<LockInfo> {
    if exists i :: Reads(time, s, i) then
      var i :| Reads(time, s, i);
      Some(i)
    else None
  }

  lemma DecodedIs(time: int -> string, s: string, i: LockInfo)
    requires Injective(time) && Reads(time, s, i)
    ensures Decoded(time, s) == Some(i)
  {
    forall j | Reads(time, s, j)
      ensures j == i
    {
      var a, b := Marshal(time, i), Marshal(time, j);
      LastBrace(Fields(time, i), 0);
      LastBrace(Fields(time, j), 0);
      assert a[|a| - 1] == '}' && b[|b| - 1] == '}';
      assert (a + "\n")[|a|] == '\n' && (b + "\n")[|b|] == '\n';
      assert a == b by {
        if s == a + "\n" && s == b + "\n" {
          assert s[..|s| - 1] == a && s[..|s| - 1] == b;
        }
      }
      MarshalInjective(time, i, j);
    }
  }

  /** So a sound codec exists, whenever start times are written injectively: what the lock assumes can be met. */
  lemma SoundCodecExists(time: int -> string)
    requires Injective(time)
    ensures Sound(Codec(i => Marshal(time, i), s => Valid(s), s => Decoded(time, s)))
  {
    var decode: string -> Option<LockInfo> := s => Decoded(time, s);
    forall i: LockInfo
      ensures decode(Marshal(time, i)) == Some(i) && decode(Marshal(time, i) + "\n") == Some(i)
    {
      DecodedIs(time, Marshal(time, i), i);
      DecodedIs(time, Marshal(time, i) + "\n", i);
    }
    RecordCodecSound(time, decode);
  }
}
