/** The UDP fault command (hcics_protocol.c): FAULT,token,id,row,col,severity.  The
    parser walks a NUL-terminated text; texts here are the bytes before the NUL. */
module FaultText {
  import opened Common

  datatype Fault = Fault(id: nat, row: nat, col: nat, severity: nat)

  /** hcics_protocol_fault_is_valid */
  predicate ValidFault(f: Fault) {
    1 <= f.id <= 9 && f.row == (f.id - 1) / 3 + 1 && f.col == (f.id - 1) % 3 + 1 && f.severity != 0
  }

  /** A read through the cursor: the terminating NUL past the last byte. */
  function At(s: string, i: nat): char {
    if i < |s| then s[i] else '\0'
  }

  predicate CString(s: string) {
    forall i :: 0 <= i < |s| ==> s[i] != '\0'
  }

  predicate Digit(c: char) {
    '0' <= c <= '9'
  }

  predicate Space(c: char) {
    c == '\r' || c == '\n' || c == ' ' || c == '\t'
  }

  function DigitValue(c: char): nat
    requires Digit(c)
  {
    c as int - '0' as int
  }

  predicate Digits(ds: string) {
    forall i :: 0 <= i < |ds| ==> Digit(ds[i])
  }

  predicate Spaces(ws: string) {
    forall i :: 0 <= i < |ws| ==> Space(ws[i])
  }

  function Decimal(ds: string): nat
    requires Digits(ds)
    decreases |ds|
  {
    if |ds| == 0 then 0 else Decimal(ds[..|ds| - 1]) * 10 + DigitValue(ds[|ds| - 1])
  }

  function DigitsEnd(s: string, i: nat): (e: nat)
    requires i <= |s|
    ensures i <= e <= |s| && Digits(s[i..e]) && !Digit(At(s, e))
    decreases |s| - i
  {
    if Digit(At(s, i)) then
      var e := DigitsEnd(s, i + 1);
      assert forall k :: i <= k < e ==> s[k] == if k == i then s[i] else s[i + 1..e][k - i - 1];
      e
    else i
  }

  function SpacesEnd(s: string, i: nat): (e: nat)
    requires i <= |s|
    ensures i <= e <= |s| && Spaces(s[i..e]) && !Space(At(s, e))
    decreases |s| - i
  {
    if Space(At(s, i)) then
      var e := SpacesEnd(s, i + 1);
      assert forall k :: i <= k < e ==> s[k] == if k == i then s[i] else s[i + 1..e][k - i - 1];
      e
    else i
  }

  /** What must follow a field: the delimiter, or white space to the end of the text. */
  function Tail(s: string, e: nat, delimiter: char): Option<nat>
    requires e <= |s|
  {
    if delimiter != '\0' then if At(s, e) == delimiter then Some(e + 1) else None
    else if SpacesEnd(s, e) == |s| then Some(|s|) else None
  }

  datatype Field = Field(value: nat, next: nat)

  function UintField(s: string, i: nat, delimiter: char): Option<Field>
    requires i <= |s|
  {
    var e := DigitsEnd(s, i);
    if e == i || Decimal(s[i..e]) > 255 then None
    else match Tail(s, e, delimiter) case None => None case Some(n) => Some(Field(Decimal(s[i..e]), n))
  }

  /** hcics_token_is_usable */
  predicate Usable(token: string) {
    |token| > 0 && forall i :: 0 <= i < |token| ==> token[i] != ',' && !Space(token[i])
  }

  function TokenField(s: string, i: nat, delimiter: char, token: string): Option<nat>
    requires i <= |s|
  {
    if !Usable(token) || i + |token| > |s| || s[i..i + |token|] != token then None
    else Tail(s, i + |token|, delimiter)
  }

  /** The four numbers, from position `i` on. */
  function Numbers(s: string, i: nat): Option<Fault>
    requires CString(s) && i <= |s|
  {
    var a := UintField(s, i, ',');
    if a.None? then None else
    assert At(s, a.value.next - 1) == ',';
    var b := UintField(s, a.value.next, ',');
    if b.None? then None else
    var c := UintField(s, b.value.next, ',');
    if c.None? then None else
    var d := UintField(s, c.value.next, '\0');
    if d.None? then None else
    Some(Fault(a.value.value, b.value.value, c.value.value, d.value.value))
  }

  function Parse(s: string, token: string): Option<Fault>
    requires CString(s)
  {
    if !Usable(token) || |s| < 6 || s[..6] != "FAULT," then None
    else
      var t := TokenField(s, 6, ',', token);
      if t.None? then None
      else
        var f := Numbers(s, t.value);
        if f.None? || !ValidFault(f.value) then None else f
  }

  /** The grammar, independent of the parser: which fault a text means, if any. */
  ghost predicate Means(s: string, token: string, f: Fault) {
    && Usable(token) && ValidFault(f)
    && exists a: string, b: string, c: string, d: string, ws: string ::
         && IsNumber(a, f.id) && IsNumber(b, f.row) && IsNumber(c, f.col) && IsNumber(d, f.severity)
         && Spaces(ws)
         && s == "FAULT," + token + "," + a + "," + b + "," + c + "," + d + ws
  }

  /** Any leading zeros, at most 255. */
  ghost predicate IsNumber(ds: string, v: nat) {
    |ds| > 0 && Digits(ds) && Decimal(ds) == v && v <= 255
  }

  lemma {:induction false} DigitsEndAt(s: string, i: nat, e: nat)
    requires i <= e <= |s| && Digits(s[i..e]) && !Digit(At(s, e))
    ensures DigitsEnd(s, i) == e
    decreases e - i
  {
    if i < e {
      assert s[i] == s[i..e][0];
      assert s[i + 1..e] == s[i..e][1..];
      DigitsEndAt(s, i + 1, e);
    }
  }

  lemma {:induction false} SpacesEndAt(s: string, i: nat, e: nat)
    requires i <= e <= |s| && Spaces(s[i..e]) && !Space(At(s, e))
    ensures SpacesEnd(s, i) == e
    decreases e - i
  {
    if i < e {
      assert s[i] == s[i..e][0];
      assert s[i + 1..e] == s[i..e][1..];
      SpacesEndAt(s, i + 1, e);
    }
  }

  /** A field in the middle of the text. */
  lemma InnerField(s: string, i: nat, ds: string, v: nat, rest: string)
    requires i <= |s| && s[i..] == ds + "," + rest && IsNumber(ds, v)
    ensures UintField(s, i, ',') == Some(Field(v, i + |ds| + 1))
    ensures i + |ds| + 1 <= |s| && s[i + |ds| + 1..] == rest
  {
    hide Decimal, DigitsEnd;
    var e := i + |ds|;
    assert |s[i..]| == |ds| + 1 + |rest|;
    assert s[i..][|ds|] == ',';
    assert s[i..e] == s[i..][..|ds|] == ds;
    assert s[e + 1..] == s[i..][|ds| + 1..];
    DigitsEndAt(s, i, e);
  }

  lemma LastField(s: string, i: nat, ds: string, v: nat, ws: string)
    requires i <= |s| && s[i..] == ds + ws && IsNumber(ds, v) && Spaces(ws)
    ensures UintField(s, i, '\0') == Some(Field(v, |s|))
  {
    hide Decimal, DigitsEnd, SpacesEnd;
    var e := i + |ds|;
    assert |s[i..]| == |ds| + |ws|;
    assert s[i..e] == s[i..][..|ds|] == ds;
    assert s[e..] == s[i..][|ds|..] == ws;
    assert s[e..|s|] == ws;
    assert e < |s| ==> At(s, e) == ws[0];
    DigitsEndAt(s, i, e);
    SpacesEndAt(s, e, |s|);
  }

  /** Four numbers and white space to the end of the text. */
  lemma NumbersParse(s: string, i: nat, a: string, b: string, c: string, d: string, ws: string, f: Fault)
    requires CString(s) && i <= |s| && s[i..] == a + "," + b + "," + c + "," + d + ws
    requires IsNumber(a, f.id) && IsNumber(b, f.row) && IsNumber(c, f.col) && IsNumber(d, f.severity) && Spaces(ws)
    ensures Numbers(s, i) == Some(f)
  {
    hide Decimal, DigitsEnd, UintField, Tail;
    var r4 := d + ws;
    var r3 := c + "," + r4;
    var r2 := b + "," + r3;
    assert s[i..] == a + "," + r2;
    InnerField(s, i, a, f.id, r2);
    InnerField(s, i + |a| + 1, b, f.row, r3);
    InnerField(s, i + |a| + 1 + |b| + 1, c, f.col, r4);
    LastField(s, i + |a| + 1 + |b| + 1 + |c| + 1, d, f.severity, ws);
  }

  lemma MeansParses(s: string, token: string, f: Fault)
    requires CString(s) && Means(s, token, f)
    ensures Parse(s, token) == Some(f)
  {
    hide Numbers, IsNumber, ValidFault, TokenField, Spaces;
    var a: string, b: string, c: string, d: string, ws: string :|
      && IsNumber(a, f.id) && IsNumber(b, f.row) && IsNumber(c, f.col) && IsNumber(d, f.severity)
      && Spaces(ws)
      && s == "FAULT," + token + "," + a + "," + b + "," + c + "," + d + ws;
    var rest := a + "," + b + "," + c + "," + d + ws;
    assert s == "FAULT," + token + "," + rest;
    HeadParses(s, token, rest);
    NumbersParse(s, 7 + |token|, a, b, c, d, ws, f);
  }

  lemma HeadParses(s: string, token: string, rest: string)
    requires Usable(token) && s == "FAULT," + token + "," + rest
    ensures |s| >= 7 + |token| && s[..6] == "FAULT,"
    ensures TokenField(s, 6, ',', token) == Some(7 + |token|) && s[7 + |token|..] == rest
  {
    assert s[6..6 + |token|] == token;
  }

  /** What an accepted field was. */
  lemma FieldWas(s: string, i: nat) returns (ds: string)
    requires CString(s) && i <= |s| && UintField(s, i, ',').Some?
    ensures var r := UintField(s, i, ',').value;
            IsNumber(ds, r.value) && r.next <= |s| && s[i..] == ds + "," + s[r.next..]
  {
    hide Decimal;
    var e := DigitsEnd(s, i);
    ds := s[i..e];
    assert s[e] == ',';
    assert s[i..] == ds + s[e..];
    assert s[e..] == "," + s[e + 1..];
  }

  lemma LastWas(s: string, i: nat) returns (ds: string, ws: string)
    requires CString(s) && i <= |s| && UintField(s, i, '\0').Some?
    ensures IsNumber(ds, UintField(s, i, '\0').value.value) && Spaces(ws) && s[i..] == ds + ws
  {
    hide Decimal;
    var e := DigitsEnd(s, i);
    ds := s[i..e];
    ws := s[e..SpacesEnd(s, e)];
  }

  lemma HeadWas(s: string, token: string)
    requires CString(s) && |s| >= 6 && s[..6] == "FAULT," && TokenField(s, 6, ',', token).Some?
    ensures var n := TokenField(s, 6, ',', token).value;
            n <= |s| && s == "FAULT," + token + "," + s[n..]
  {
    var n := TokenField(s, 6, ',', token).value;
    assert s[n - 1] == ',';
    assert s == s[..6] + s[6..6 + |token|] + s[6 + |token|..];
    assert s[6 + |token|..] == "," + s[n..];
  }

  lemma ParsedMeans(s: string, token: string)
    requires CString(s) && Parse(s, token).Some?
    ensures Means(s, token, Parse(s, token).value)
  {
    hide Decimal, DigitsEnd, UintField, ValidFault, Tail, TokenField;
    var f := Parse(s, token).value;
    HeadWas(s, token);
    var i := TokenField(s, 6, ',', token).value;
    var a := FieldWas(s, i);
    var j := UintField(s, i, ',').value.next;
    var b := FieldWas(s, j);
    var k := UintField(s, j, ',').value.next;
    var c := FieldWas(s, k);
    var l := UintField(s, k, ',').value.next;
    var d, ws := LastWas(s, l);
    Regroup(s, token, s[i..], a, s[j..], b, s[k..], c, s[l..], d, ws);
  }

  lemma Regroup(s: string, token: string, r1: string, a: string, r2: string, b: string, r3: string,
                c: string, r4: string, d: string, ws: string)
    requires s == "FAULT," + token + "," + r1
    requires r1 == a + "," + r2 && r2 == b + "," + r3 && r3 == c + "," + r4 && r4 == d + ws
    ensures s == "FAULT," + token + "," + a + "," + b + "," + c + "," + d + ws
  {
  }

  /** The parser accepts exactly the grammar's texts, with exactly their meaning. */
  lemma ParseExact(s: string, token: string, f: Fault)
    requires CString(s)
    ensures Parse(s, token) == Some(f) <==> Means(s, token, f)
  {
    hide Parse, Means;
    if Means(s, token, f) {
      MeansParses(s, token, f);
    }
    if Parse(s, token).Some? {
      ParsedMeans(s, token);
    }
  }

  function Show(n: nat): (ds: string)
    requires n <= 255
    ensures |ds| > 0 && Digits(ds)
  {
    if n < 10 then [DigitChar(n)]
    else if n < 100 then [DigitChar(n / 10), DigitChar(n % 10)]
    else [DigitChar(n / 100), DigitChar(n / 10 % 10), DigitChar(n % 10)]
  }

  function DigitChar(n: nat): (c: char)
    requires n < 10
    ensures Digit(c) && DigitValue(c) == n
  {
    ('0' as int + n) as char
  }

  lemma ShowIs(n: nat)
    requires n <= 255
    ensures Decimal(Show(n)) == n
  {
    if n < 10 {
      DecimalOne(DigitChar(n));
    } else if n < 100 {
      DecimalMore([DigitChar(n / 10)], DigitChar(n % 10));
      DecimalOne(DigitChar(n / 10));
    } else {
      ThreeDigits(n / 100, n / 10 % 10, n % 10);
      HundredsTensOnes(n);
    }
  }

  lemma HundredsTensOnes(n: nat)
    ensures n == n / 100 * 100 + n / 10 % 10 * 10 + n % 10
  {
    var tens := n / 10;
    assert n == tens * 10 + n % 10 && tens == tens / 10 * 10 + tens % 10;
    assert tens / 10 == n / 100;
  }

  lemma ThreeDigits(a: nat, b: nat, c: nat)
    requires a < 10 && b < 10 && c < 10
    ensures Decimal([DigitChar(a), DigitChar(b), DigitChar(c)]) == a * 100 + b * 10 + c
  {
    hide Decimal;
    DecimalMore([DigitChar(a), DigitChar(b)], DigitChar(c));
    DecimalMore([DigitChar(a)], DigitChar(b));
    DecimalOne(DigitChar(a));
    assert [DigitChar(a), DigitChar(b), DigitChar(c)] == [DigitChar(a), DigitChar(b)] + [DigitChar(c)];
    assert [DigitChar(a), DigitChar(b)] == [DigitChar(a)] + [DigitChar(b)];
  }

  lemma DecimalOne(c: char)
    requires Digit(c)
    ensures Decimal([c]) == DigitValue(c)
  {
    DecimalMore([], c);
  }

  lemma DecimalMore(ds: string, c: char)
    requires Digits(ds) && Digit(c)
    ensures Decimal(ds + [c]) == Decimal(ds) * 10 + DigitValue(c)
  {
    assert (ds + [c])[..|ds|] == ds;
  }

  function Print(token: string, f: Fault): string
    requires f.id <= 255 && f.row <= 255 && f.col <= 255 && f.severity <= 255
  {
    "FAULT," + token + "," + Show(f.id) + "," + Show(f.row) + "," + Show(f.col) + "," + Show(f.severity) + "\n"
  }

  /** Printing and parsing undo each other for every usable token and valid fault. */
  lemma RoundTrip(token: string, f: Fault)
    requires Usable(token) && CString(token) && ValidFault(f) && f.severity <= 255
    ensures CString(Print(token, f)) && Parse(Print(token, f), token) == Some(f)
  {
    hide Show, Parse, Decimal, ValidFault, Usable, Means;
    RangeOfValid(f);
    ShowIs(f.id);
    ShowIs(f.row);
    ShowIs(f.col);
    ShowIs(f.severity);
    var s := Print(token, f);
    assert Spaces("\n");
    assert s == "FAULT," + token + "," + Show(f.id) + "," + Show(f.row) + "," + Show(f.col) + ","
                + Show(f.severity) + "\n";
    PrintIsCString(token, f);
    MeansIntro(s, token, f, Show(f.id), Show(f.row), Show(f.col), Show(f.severity), "\n");
    MeansParses(s, token, f);
  }

  lemma MeansIntro(s: string, token: string, f: Fault, a: string, b: string, c: string, d: string, ws: string)
    requires Usable(token) && ValidFault(f)
    requires IsNumber(a, f.id) && IsNumber(b, f.row) && IsNumber(c, f.col) && IsNumber(d, f.severity)
    requires Spaces(ws)
    requires s == "FAULT," + token + "," + a + "," + b + "," + c + "," + d + ws
    ensures Means(s, token, f)
  {
  }

  /** A numeral without leading zeros. */
  ghost predicate Shortest(ds: string) {
    |ds| > 0 && Digits(ds) && Decimal(ds) <= 255 && (|ds| > 1 ==> ds[0] != '0')
  }

  lemma FirstDigits(ds: string)
    requires Digits(ds) && |ds| > 1 && ds[0] != '0'
    ensures Decimal(ds[..2]) == DigitValue(ds[0]) * 10 + DigitValue(ds[1]) >= 10
    ensures |ds| > 2 ==> Decimal(ds[..3]) == Decimal(ds[..2]) * 10 + DigitValue(ds[2])
    ensures |ds| > 3 ==> Decimal(ds[..4]) >= 1000
  {
    assert ds[..2] == [ds[0]] + [ds[1]];
    DecimalOne(ds[0]);
    DecimalMore([ds[0]], ds[1]);
    if |ds| > 2 {
      assert ds[..3] == ds[..2] + [ds[2]];
      DecimalMore(ds[..2], ds[2]);
    }
    if |ds| > 3 {
      assert ds[..4] == ds[..3] + [ds[3]];
      DecimalMore(ds[..3], ds[3]);
    }
  }

  /** A number has one shortest numeral. */
  lemma ShowUnique(ds: string)
    requires Shortest(ds)
    ensures ds == Show(Decimal(ds))
  {
    hide Decimal;
    if |ds| == 1 {
      DecimalOne(ds[0]);
      assert ds == [ds[0]];
    } else {
      FirstDigits(ds);
      if |ds| > 3 {
        assert ds[0..4] == ds[..4] && ds[0..|ds|] == ds;
        DecimalGrows(ds, 0, 4, |ds|);
      }
      assert ds == if |ds| == 2 then ds[..2] else ds[..3];
    }
  }

  /** A text as the printer writes it: shortest numerals and one newline. */
  ghost predicate Plain(s: string, token: string) {
    exists a: string, b: string, c: string, d: string ::
      && Shortest(a) && Shortest(b) && Shortest(c) && Shortest(d)
      && s == "FAULT," + token + "," + a + "," + b + "," + c + "," + d + "\n"
  }

  /** Printing what was parsed gives the text back exactly when the text was plain. */
  lemma PrintExact(s: string, token: string, f: Fault)
    requires CString(s) && Parse(s, token) == Some(f)
    ensures f.id <= 255 && f.row <= 255 && f.col <= 255 && f.severity <= 255
    ensures s == Print(token, f) <==> Plain(s, token)
  {
    hide Parse, Decimal, Show, ValidFault, Usable;
    ParsedMeans(s, token);
    ParsedValid(s, token);
    RangeOfValid(f);
    if Plain(s, token) {
      var a: string, b: string, c: string, d: string :|
        && Shortest(a) && Shortest(b) && Shortest(c) && Shortest(d)
        && s == "FAULT," + token + "," + a + "," + b + "," + c + "," + d + "\n";
      PlainParses(s, token, a, b, c, d, Fault(Decimal(a), Decimal(b), Decimal(c), Decimal(d)));
      ShowUnique(a);
      ShowUnique(b);
      ShowUnique(c);
      ShowUnique(d);
    }
    if s == Print(token, f) {
      ShownPlain(s, token, f);
    }
  }

  lemma ParsedValid(s: string, token: string)
    requires CString(s) && Parse(s, token).Some?
    ensures ValidFault(Parse(s, token).value) && Usable(token) && Parse(s, token).value.severity <= 255
  {
    ParsedMeans(s, token);
  }

  lemma ShownPlain(s: string, token: string, f: Fault)
    requires f.id <= 255 && f.row <= 255 && f.col <= 255 && f.severity <= 255 && s == Print(token, f)
    ensures Plain(s, token)
  {
    hide Decimal, Show;
    ShowIs(f.id);
    ShowIs(f.row);
    ShowIs(f.col);
    ShowIs(f.severity);
    ShowShortest(f.id);
    ShowShortest(f.row);
    ShowShortest(f.col);
    ShowShortest(f.severity);
    PlainIntro(s, token, Show(f.id), Show(f.row), Show(f.col), Show(f.severity));
  }

  lemma PlainIntro(s: string, token: string, a: string, b: string, c: string, d: string)
    requires Shortest(a) && Shortest(b) && Shortest(c) && Shortest(d)
    requires s == "FAULT," + token + "," + a + "," + b + "," + c + "," + d + "\n"
    ensures Plain(s, token)
  {
  }

  lemma ShowShortest(n: nat)
    requires n <= 255
    ensures |Show(n)| > 1 ==> Show(n)[0] != '0'
  {
  }

  lemma PlainParses(s: string, token: string, a: string, b: string, c: string, d: string, g: Fault)
    requires CString(s) && Parse(s, token).Some?
    requires IsNumber(a, g.id) && IsNumber(b, g.row) && IsNumber(c, g.col) && IsNumber(d, g.severity)
    requires s == "FAULT," + token + "," + a + "," + b + "," + c + "," + d + "\n"
    ensures Parse(s, token) == Some(g)
  {
    hide ValidFault, Usable, Numbers, IsNumber, TokenField, Spaces;
    ParsedUsable(s, token);
    NewlineSpaces();
    var rest := a + "," + b + "," + c + "," + d + "\n";
    assert s == "FAULT," + token + "," + rest;
    HeadParses(s, token, rest);
    NumbersParse(s, 7 + |token|, a, b, c, d, "\n", g);
  }

  lemma NewlineSpaces()
    ensures Spaces("\n")
  {
  }

  lemma ParsedUsable(s: string, token: string)
    requires CString(s) && Parse(s, token).Some?
    ensures Usable(token)
  {
  }

  lemma RangeOfValid(f: Fault)
    requires ValidFault(f)
    ensures f.id <= 255 && f.row <= 255 && f.col <= 255
  {
  }

  lemma PrintIsCString(token: string, f: Fault)
    requires f.id <= 255 && f.row <= 255 && f.col <= 255 && f.severity <= 255 && CString(token)
    ensures CString(Print(token, f))
  {
    hide Show, Decimal;
  }

  /** hcics_parse_uint_field; `next` is where the cursor is left on success. */
  method ParseUintField(s: string, cursor: nat, delimiter: char) returns (r: Option<Field>)
    requires CString(s) && cursor <= |s|
    ensures r == UintField(s, cursor, delimiter)
  {
    var p := cursor;
    var parsed := 0;
    if !Digit(At(s, p)) {
      return None;
    }
    ghost var e := DigitsEnd(s, cursor);
    while Digit(At(s, p))
      invariant cursor <= p <= e && Digits(s[cursor..p]) && DigitsEnd(s, p) == e
      invariant parsed == Decimal(s[cursor..p]) <= 255
      decreases e - p
    {
      assert s[cursor..p + 1][..p - cursor] == s[cursor..p];
      parsed := parsed * 10 + DigitValue(At(s, p));
      p := p + 1;
      if parsed > 255 {
        DecimalGrows(s, cursor, p, e);
        return None;
      }
    }
    var n := ParseTail(s, p, delimiter);
    if n.None? {
      return None;
    }
    r := Some(Field(parsed, n.value));
  }

  lemma {:induction false} DecimalGrows(s: string, i: nat, p: nat, e: nat)
    requires i <= p <= e <= |s| && Digits(s[i..e]) && Digits(s[i..p])
    ensures Decimal(s[i..p]) <= Decimal(s[i..e])
    decreases e - p
  {
    if p < e {
      assert s[i..e][..e - i - 1] == s[i..e - 1];
      assert Digits(s[i..e - 1]);
      DecimalGrows(s, i, p, e - 1);
    }
  }

  /** What both field parsers do after the field itself. */
  method ParseTail(s: string, from: nat, delimiter: char) returns (r: Option<nat>)
    requires CString(s) && from <= |s|
    ensures r == Tail(s, from, delimiter)
  {
    var p := from;
    if delimiter != '\0' {
      if At(s, p) != delimiter {
        return None;
      }
      return Some(p + 1);
    }
    ghost var e := SpacesEnd(s, from);
    while Space(At(s, p))
      invariant from <= p <= e && SpacesEnd(s, p) == e
      decreases e - p
    {
      p := p + 1;
    }
    if At(s, p) != '\0' {
      return None;
    }
    r := Some(p);
  }

  /** hcics_token_is_usable */
  method TokenIsUsable(token: string) returns (ok: bool)
    requires CString(token)
    ensures ok <==> Usable(token)
  {
    if At(token, 0) == '\0' {
      return false;
    }
    var p := 0;
    while At(token, p) != '\0'
      invariant p <= |token|
      invariant forall i :: 0 <= i < p ==> token[i] != ',' && !Space(token[i])
      decreases |token| - p
    {
      if token[p] == ',' || Space(token[p]) {
        return false;
      }
      p := p + 1;
    }
    ok := true;
  }

  /** hcics_parse_token_field */
  method ParseTokenField(s: string, cursor: nat, delimiter: char, token: string) returns (r: Option<nat>)
    requires CString(s) && CString(token) && cursor <= |s|
    ensures r == TokenField(s, cursor, delimiter, token)
  {
    hide Usable, Tail;
    var ok := TokenIsUsable(token);
    if !ok {
      return None;
    }
    var p, t := cursor, 0;
    while At(token, t) != '\0' && At(s, p) == At(token, t)
      invariant t <= |token| && p == cursor + t <= |s|
      invariant s[cursor..p] == token[..t]
      decreases |token| - t
    {
      assert s[cursor..p + 1] == s[cursor..p] + [s[p]] && token[..t + 1] == token[..t] + [token[t]];
      p, t := p + 1, t + 1;
    }
    if At(token, t) != '\0' {
      assert cursor + |token| <= |s| ==> p < |s| && s[cursor..cursor + |token|][t] == s[p];
      return None;
    }
    r := ParseTail(s, p, delimiter);
  }

  /** hcics_protocol_parse_fault_text */
  method ParseFaultText(s: string, token: string) returns (r: Option<Fault>)
    requires CString(s) && CString(token)
    ensures r == Parse(s, token)
  {
    hide UintField, TokenField, ValidFault, Usable;
    var ok := TokenIsUsable(token);
    if !ok || |s| < 6 || s[..6] != "FAULT," {
      return None;
    }
    var p := ParseTokenField(s, 6, ',', token);
    if p.None? {
      return None;
    }
    CommaFollows(s, token);
    r := ParseNumbers(s, p.value);
    if r.None? {
      return;
    }
    GridOfValid(r.value);
    if !(1 <= r.value.row <= 3 && 1 <= r.value.col <= 3) {
      return None;
    }
    if !ValidFault(r.value) {
      return None;
    }
  }

  lemma CommaFollows(s: string, token: string)
    requires CString(s) && |s| >= 6 && TokenField(s, 6, ',', token).Some?
    ensures TokenField(s, 6, ',', token).value <= |s|
  {
    assert At(s, 6 + |token|) == ',';
  }

  lemma FieldStays(s: string, i: nat)
    requires CString(s) && i <= |s| && UintField(s, i, ',').Some?
    ensures UintField(s, i, ',').value.next <= |s|
  {
    assert At(s, DigitsEnd(s, i)) == ',';
  }

  /** The panels are numbered row by row, three to a row. */
  lemma ValidNumbering(f: Fault)
    ensures ValidFault(f) <==>
              1 <= f.row <= 3 && 1 <= f.col <= 3 && f.id == 3 * (f.row - 1) + f.col && f.severity > 0
  {
  }

  /** The grid test before the last is implied by it. */
  lemma GridOfValid(f: Fault)
    ensures ValidFault(f) ==> 1 <= f.row <= 3 && 1 <= f.col <= 3
  {
  }

  method ParseNumbers(s: string, cursor: nat) returns (r: Option<Fault>)
    requires CString(s) && cursor <= |s|
    ensures r == Numbers(s, cursor)
  {
    hide UintField;
    var id := ParseUintField(s, cursor, ',');
    if id.None? {
      return None;
    }
    FieldStays(s, cursor);
    var row := ParseUintField(s, id.value.next, ',');
    if row.None? {
      return None;
    }
    FieldStays(s, id.value.next);
    var col := ParseUintField(s, row.value.next, ',');
    if col.None? {
      return None;
    }
    FieldStays(s, row.value.next);
    var severity := ParseUintField(s, col.value.next, '\0');
    if severity.None? {
      return None;
    }
    r := Some(Fault(id.value.value, row.value.value, col.value.value, severity.value.value));
  }

  /** STOP,token and white space. */
  ghost predicate MeansStop(s: string, token: string) {
    Usable(token) && exists ws: string :: Spaces(ws) && s == "STOP," + token + ws
  }

  lemma StopExact(s: string, token: string)
    requires CString(s)
    ensures MeansStop(s, token) <==>
            |s| >= 5 && s[..5] == "STOP," && TokenField(s, 5, '\0', token).Some?
  {
    var e := 5 + |token|;
    if MeansStop(s, token) {
      var ws: string :| Spaces(ws) && s == "STOP," + token + ws;
      assert s[5..e] == token && s[e..|s|] == ws;
      SpacesEndAt(s, e, |s|);
    }
    if |s| >= 5 && s[..5] == "STOP," && TokenField(s, 5, '\0', token).Some? {
      assert s == s[..5] + s[5..e] + s[e..|s|];
    }
  }

  /** hcics_protocol_parse_stop_text */
  method ParseStopText(s: string, token: string) returns (ok: bool)
    requires CString(s) && CString(token)
    ensures ok <==> MeansStop(s, token)
  {
    hide TokenField, Usable, MeansStop;
    StopExact(s, token);
    ok := TokenIsUsable(token);
    if !ok || |s| < 5 || s[..5] != "STOP," {
      UsableIfStop(s, token);
      return false;
    }
    var p := ParseTokenField(s, 5, '\0', token);
    ok := p.Some?;
  }

  lemma UsableIfStop(s: string, token: string)
    ensures MeansStop(s, token) ==> Usable(token)
  {
  }
}
