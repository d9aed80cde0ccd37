/** The JSON text of a lock file: what counts as JSON (RFC 8259 sections 2 to 7), how a record is written, and
    why a record that is cut short is never JSON. */
module LockJson {
  import opened Basics
  import opened LockProtocol

  // ---- What is JSON: each function returns the position after the text it accepts ----

  predicate IsSpace(ch: char) {
    ch == ' ' || ch == '\t' || ch == '\n' || ch == '\r'
  }

  function Ws(s: string, i: nat): (j: nat)
    requires i <= |s|
    ensures i <= j <= |s| && (j < |s| ==> !IsSpace(s[j]))
    decreases |s| - i
  {
    if i < |s| && IsSpace(s[i]) then Ws(s, i + 1) else i
  }

  predicate IsDigit(ch: char) {
    '0' <= ch <= '9'
  }

  predicate IsHex(ch: char) {
    IsDigit(ch) || 'a' <= ch <= 'f' || 'A' <= ch <= 'F'
  }

  function Digits(s: string, i: nat): (j: nat)
    requires i <= |s|
    ensures i <= j <= |s|
    decreases |s| - i
  {
    if i < |s| && IsDigit(s[i]) then Digits(s, i + 1) else i
  }

  /** The rest of a string after its opening quote. */
  function Str(s: string, i: nat): (r: Option<nat>)
    requires i <= |s|
    ensures r.Some? ==> i < r.value <= |s|
    decreases |s| - i
  {
    if i == |s| || s[i] < ' ' then None
    else if s[i] == '"' then Some(i + 1)
    else if s[i] != '\\' then Str(s, i + 1)
    else if i + 1 < |s| && s[i + 1] in {'"', '\\', '/', 'b', 'f', 'n', 'r', 't'} then Str(s, i + 2)
    else if i + 5 < |s| && s[i + 1] == 'u' && IsHex(s[i + 2]) && IsHex(s[i + 3]) && IsHex(s[i + 4]) && IsHex(s[i + 5])
      then Str(s, i + 6)
    else None
  }

  function Number(s: string, i: nat): (r: Option<nat>)
    requires i < |s|
    ensures r.Some? ==> i < r.value <= |s|
  {
    var a := if s[i] == '-' then i + 1 else i;
    if a == |s| || !IsDigit(s[a]) then None
    else
      var b := if s[a] == '0' then a + 1 else Digits(s, a);
      var frac := if b < |s| && s[b] == '.' then
                    (if b + 1 < |s| && IsDigit(s[b + 1]) then Some(Digits(s, b + 1)) else None)
                  else Some(b);
      if frac.None? then None else Exponent(s, frac.value)
  }

  function Exponent(s: string, i: nat): (r: Option<nat>)
    requires i <= |s|
    ensures r.Some? ==> i <= r.value <= |s|
  {
    if i < |s| && s[i] in {'e', 'E'} then
      var a := if i + 1 < |s| && s[i + 1] in {'+', '-'} then i + 2 else i + 1;
      if a < |s| && IsDigit(s[a]) then Some(Digits(s, a)) else None
    else Some(i)
  }

  function Word(s: string, i: nat, w: string): (r: Option<nat>)
    requires i <= |s|
    ensures r.Some? ==> r.value == i + |w| <= |s| && s[i..i + |w|] == w
  {
    if i + |w| <= |s| && s[i..i + |w|] == w then Some(i + |w|) else None
  }

  function Value(s: string, i: nat): (r: Option<nat>)
    requires i <= |s|
    ensures r.Some? ==> i < r.value <= |s|
    decreases |s| - i, 1
  {
    if i == |s| then None
    else match s[i]
      case '{' =>
        var j := Ws(s, i + 1);
        if j < |s| && s[j] == '}' then Some(j + 1) else Members(s, j)
      case '[' =>
        var j := Ws(s, i + 1);
        if j < |s| && s[j] == ']' then Some(j + 1) else Elements(s, j)
      case '"' => Str(s, i + 1)
      case 't' => Word(s, i, "true")
      case 'f' => Word(s, i, "false")
      case 'n' => Word(s, i, "null")
      case _ => Number(s, i)
  }

  function Members(s: string, i: nat): (r: Option<nat>)
    requires i <= |s|
    ensures r.Some? ==> i < r.value <= |s|
    decreases |s| - i, 0
  {
    if i == |s| || s[i] != '"' then None
    else
      var name := Str(s, i + 1);
      if name.None? then None
      else
        var colon := Ws(s, name.value);
        if colon == |s| || s[colon] != ':' then None
        else
          var v := Value(s, Ws(s, colon + 1));
          if v.None? then None
          else
            var next := Ws(s, v.value);
            if next == |s| then None
            else if s[next] == '}' then Some(next + 1)
            else if s[next] == ',' then Members(s, Ws(s, next + 1))
            else None
  }

  function Elements(s: string, i: nat): (r: Option<nat>)
    requires i <= |s|
    ensures r.Some? ==> i < r.value <= |s|
    decreases |s| - i, 2
  {
    var v := Value(s, i);
    if v.None? then None
    else
      var next := Ws(s, v.value);
      if next == |s| then None
      else if s[next] == ']' then Some(next + 1)
      else if s[next] == ',' then Elements(s, Ws(s, next + 1))
      else None
  }

  /** `json.Valid`. */
  predicate Valid(s: string) {
    var v := Value(s, Ws(s, 0));
    v.Some? && Ws(s, v.value) == |s|
  }

  // ---- Nesting: a complete value leaves every bracket and string closed ----

  datatype Mode = Out(depth: int) | InString(depth: int) | InEscape(depth: int)

  function Next(m: Mode, ch: char): Mode {
    match m
    case Out(d) =>
      if ch == '"' then InString(d)
      else if ch == '{' || ch == '[' then Out(d + 1)
      else if ch == '}' || ch == ']' then Out(d - 1)
      else m
    case InString(d) => if ch == '"' then Out(d) else if ch == '\\' then InEscape(d) else m
    case InEscape(d) => InString(d)
  }

  /** The mode at `j` for a reader that is in mode `m` at `i`. */
  function Scan(s: string, i: nat, j: nat, m: Mode): Mode
    requires i <= j <= |s|
    decreases j - i
  {
    if i == j then m else Scan(s, i + 1, j, Next(m, s[i]))
  }

  lemma {:induction false} ScanSplit(s: string, i: nat, k: nat, j: nat, m: Mode)
    requires i <= k <= j <= |s|
    ensures Scan(s, i, j, m) == Scan(s, k, j, Scan(s, i, k, m))
    decreases k - i
  {
    if i < k {
      ScanSplit(s, i + 1, k, j, Next(m, s[i]));
    }
  }

  /** Characters that change nothing outside a string. */
  predicate Neutral(ch: char) {
    ch !in {'"', '{', '}', '[', ']'}
  }

  lemma {:induction false} ScanNeutral(s: string, i: nat, j: nat, d: int)
    requires i <= j <= |s| && forall k | i <= k < j :: Neutral(s[k])
    ensures Scan(s, i, j, Out(d)) == Out(d)
    decreases j - i
  {
    if i < j {
      ScanNeutral(s, i + 1, j, d);
    }
  }

  lemma {:induction false} WsNeutral(s: string, i: nat)
    requires i <= |s|
    ensures forall k | i <= k < Ws(s, i) :: Neutral(s[k])
    decreases |s| - i
  {
    if i < |s| && IsSpace(s[i]) {
      WsNeutral(s, i + 1);
    }
  }

  lemma ScanWs(s: string, i: nat, d: int)
    requires i <= |s|
    ensures Scan(s, i, Ws(s, i), Out(d)) == Out(d)
  {
    WsNeutral(s, i);
    ScanNeutral(s, i, Ws(s, i), d);
  }

  lemma {:induction false} DigitsNeutral(s: string, i: nat)
    requires i <= |s|
    ensures forall k | i <= k < Digits(s, i) :: Neutral(s[k])
    decreases |s| - i
  {
    if i < |s| && IsDigit(s[i]) {
      DigitsNeutral(s, i + 1);
    }
  }

  lemma NumberNeutral(s: string, i: nat)
    requires i < |s| && Number(s, i).Some?
    ensures forall k | i <= k < Number(s, i).value :: Neutral(s[k])
  {
    var a := if s[i] == '-' then i + 1 else i;
    var b := if s[a] == '0' then a + 1 else Digits(s, a);
    DigitsNeutral(s, a);
    var c := if b < |s| && s[b] == '.' then Digits(s, b + 1) else b;
    if b < |s| && s[b] == '.' {
      DigitsNeutral(s, b + 1);
    }
    if c < |s| && s[c] in {'e', 'E'} {
      DigitsNeutral(s, if c + 1 < |s| && s[c + 1] in {'+', '-'} then c + 2 else c + 1);
    }
  }

  lemma {:induction false} ScanStr(s: string, i: nat, d: int)
    requires i <= |s| && Str(s, i).Some?
    ensures Scan(s, i, Str(s, i).value, InString(d)) == Out(d)
    decreases |s| - i
  {
    var j := Str(s, i).value;
    if s[i] == '"' {
    } else if s[i] != '\\' {
      ScanStr(s, i + 1, d);
    } else if s[i + 1] in {'"', '\\', '/', 'b', 'f', 'n', 'r', 't'} {
      ScanStr(s, i + 2, d);
    } else {
      ScanStr(s, i + 6, d);
      assert Scan(s, i + 2, i + 6, InString(d)) == InString(d) by {
        assert Scan(s, i + 5, i + 6, InString(d)) == InString(d);
        assert Scan(s, i + 4, i + 6, InString(d)) == InString(d);
        assert Scan(s, i + 3, i + 6, InString(d)) == InString(d);
      }
      ScanSplit(s, i + 2, i + 6, j, InString(d));
    }
  }

  lemma WordNeutral(s: string, i: nat, w: string)
    requires i <= |s| && Word(s, i, w).Some? && forall k | 0 <= k < |w| :: Neutral(w[k])
    ensures forall k | i <= k < i + |w| :: Neutral(s[k])
  {
    forall k | i <= k < i + |w|
      ensures Neutral(s[k])
    {
      assert s[k] == s[i..i + |w|][k - i];
    }
  }

  lemma {:induction false} ScanValue(s: string, i: nat, d: int)
    requires i <= |s| && Value(s, i).Some?
    ensures Scan(s, i, Value(s, i).value, Out(d)) == Out(d)
    decreases |s| - i, 1
  {
    hide Members, Elements, Str, Number, Ws;
    var e := Value(s, i).value;
    match s[i]
    case '{' =>
      var j := Ws(s, i + 1);
      ScanWs(s, i + 1, d + 1);
      if s[j] != '}' {
        ScanMembers(s, j, d + 1);
      }
      ScanSplit(s, i + 1, j, e, Out(d + 1));
    case '[' =>
      var j := Ws(s, i + 1);
      ScanWs(s, i + 1, d + 1);
      if s[j] != ']' {
        ScanElements(s, j, d + 1);
      }
      ScanSplit(s, i + 1, j, e, Out(d + 1));
    case '"' => ScanStr(s, i + 1, d);
    case 't' => WordNeutral(s, i, "true"); ScanNeutral(s, i, e, d);
    case 'f' => WordNeutral(s, i, "false"); ScanNeutral(s, i, e, d);
    case 'n' => WordNeutral(s, i, "null"); ScanNeutral(s, i, e, d);
    case _ => NumberNeutral(s, i); ScanNeutral(s, i, e, d);
  }

  lemma {:induction false} ScanMembers(s: string, i: nat, d: int)
    requires i <= |s| && Members(s, i).Some?
    ensures Scan(s, i, Members(s, i).value, Out(d)) == Out(d - 1)
    decreases |s| - i, 0
  {
    hide Value, Str, Ws, Elements, IsSpace;
    var e := Members(s, i).value;
    var name := Str(s, i + 1).value;
    var colon := Ws(s, name);
    var v := Ws(s, colon + 1);
    var after := Value(s, v).value;
    var next := Ws(s, after);
    ScanStr(s, i + 1, d);
    ScanSplit(s, i + 1, name, e, InString(d));
    ScanWs(s, name, d);
    ScanSplit(s, name, colon, e, Out(d));
    ScanWs(s, colon + 1, d);
    ScanSplit(s, colon + 1, v, e, Out(d));
    ScanValue(s, v, d);
    ScanSplit(s, v, after, e, Out(d));
    ScanWs(s, after, d);
    ScanSplit(s, after, next, e, Out(d));
    if s[next] == ',' {
      var m := Ws(s, next + 1);
      ScanWs(s, next + 1, d);
      ScanSplit(s, next + 1, m, e, Out(d));
      ScanMembers(s, m, d);
    }
  }

  lemma {:induction false} ScanElements(s: string, i: nat, d: int)
    requires i <= |s| && Elements(s, i).Some?
    ensures Scan(s, i, Elements(s, i).value, Out(d)) == Out(d - 1)
    decreases |s| - i, 2
  {
    hide Value;
    var e := Elements(s, i).value;
    var after := Value(s, i).value;
    var next := Ws(s, after);
    ScanValue(s, i, d);
    ScanSplit(s, i, after, e, Out(d));
    ScanWs(s, after, d);
    ScanSplit(s, after, next, e, Out(d));
    if s[next] == ',' {
      var m := Ws(s, next + 1);
      ScanWs(s, next + 1, d);
      ScanSplit(s, next + 1, m, e, Out(d));
      ScanElements(s, m, d);
    }
  }

  /** A JSON text closes everything it opens. */
  lemma ValidIsClosed(s: string)
    requires Valid(s)
    ensures Scan(s, 0, |s|, Out(0)) == Out(0)
  {
    var i := Ws(s, 0);
    var e := Value(s, i).value;
    ScanWs(s, 0, 0);
    ScanSplit(s, 0, i, |s|, Out(0));
    ScanValue(s, i, 0);
    ScanSplit(s, i, e, |s|, Out(0));
    ScanWs(s, e, 0);
  }
}
