/**
 Record frames: one JSON object per record, written in one key order and read back
 without a JSON parser. The reader must find the end of any value by itself. Text is
 one char per byte.
 */
module FrameDecode {
  import opened Basics
  import opened Decimal

  // ---- JSON values, as far as the reader looks into them ----

  /** A piece of a string: a byte, or a backslash and the byte it escapes. Section 7 of
      RFC 8259; the four hex digits of a \u escape are ordinary bytes after it. */
  datatype Piece = Plain(c: char) | Escape(c: char)

  /** A value: a number or literal, a string, or a bracketed list of values with the
      separators and white space between them. */
  datatype Value = Text(s: string) | Quoted(ps: seq<Piece>) | Nested(open: char, items: seq<Value>, close: char)

  predicate Opens(c: char) {
    c == '{' || c == '['
  }

  predicate Closes(c: char) {
    c == '}' || c == ']'
  }

  /** Text inside brackets: anything that is neither a quote nor a bracket. */
  predicate Loose(s: string) {
    forall i :: 0 <= i < |s| ==> s[i] != '"' && !Opens(s[i]) && !Closes(s[i])
  }

  predicate PiecesOk(ps: seq<Piece>) {
    forall i :: 0 <= i < |ps| ==> ps[i].Plain? ==> ps[i].c != '"' && ps[i].c != '\\'
  }

  predicate Ok(v: Value) {
    match v
    case Text(s) => Loose(s)
    case Quoted(ps) => PiecesOk(ps)
    case Nested(open, items, close) => Opens(open) && Closes(close) && forall i :: 0 <= i < |items| ==> Ok(items[i])
  }

  /** A value of its own: a number or literal is not empty and holds no comma. */
  predicate TopOk(v: Value) {
    Ok(v) && (v.Text? ==> v.s != "" && forall i :: 0 <= i < |v.s| ==> v.s[i] != ',')
  }

  function PrintPieces(ps: seq<Piece>): string {
    if ps == [] then ""
    else (match ps[0] case Plain(c) => [c] case Escape(c) => ['\\', c]) + PrintPieces(ps[1..])
  }

  function Print(v: Value): string {
    match v
    case Text(s) => s
    case Quoted(ps) => "\"" + PrintPieces(ps) + "\""
    case Nested(open, items, close) => [open] + PrintAll(items) + [close]
  }

  function PrintAll(vs: seq<Value>): string {
    if vs == [] then "" else Print(vs[0]) + PrintAll(vs[1..])
  }

  // ---- finding the end of a value ----

  /** Characters up to and including the quote that ends a string. */
  function StringEnd(s: string): Option<nat> {
    if s == "" then None
    else if s[0] == '"' then Some(1)
    else if s[0] == '\\' then if |s| == 1 then None else Plus(2, StringEnd(s[2..]))
    else Plus(1, StringEnd(s[1..]))
  }

  function Plus(n: nat, o: Option<nat>): Option<nat> {
    if o.Some? then Some(n + o.value) else None
  }

  /** Characters up to and including the bracket that brings the depth to 0. */
  function DeepEnd(s: string, depth: int, inString: bool): Option<nat> {
    if s == "" then None
    else if inString then
      if s[0] == '\\' then if |s| == 1 then None else Plus(2, DeepEnd(s[2..], depth, true))
      else Plus(1, DeepEnd(s[1..], depth, s[0] != '"'))
    else if s[0] == '"' then Plus(1, DeepEnd(s[1..], depth, true))
    else if Opens(s[0]) then Plus(1, DeepEnd(s[1..], depth + 1, false))
    else if Closes(s[0]) then if depth == 1 then Some(1) else Plus(1, DeepEnd(s[1..], depth - 1, false))
    else Plus(1, DeepEnd(s[1..], depth, false))
  }

  /** Characters before the comma or brace that follows a number or literal. */
  function TextEnd(s: string): Option<nat> {
    if s == "" then None
    else if s[0] == ',' || s[0] == '}' then Some(0)
    else Plus(1, TextEnd(s[1..]))
  }

  function ValueEnd(s: string): Option<nat> {
    if s == "" then None
    else if s[0] == '"' then Plus(1, StringEnd(s[1..]))
    else if Opens(s[0]) then DeepEnd(s, 0, false)
    else
      var n := TextEnd(s);
      if n == Some(0) then None else n
  }

  /** One piece of a string, and what is left behind it. */
  lemma FirstPiece(ps: seq<Piece>, rest: string)
    requires ps != []
    ensures var s, tail := PrintPieces(ps) + "\"" + rest, PrintPieces(ps[1..]) + "\"" + rest;
            match ps[0]
            case Plain(c) => |s| >= 1 && s[0] == c && s[1..] == tail && |PrintPieces(ps)| == 1 + |PrintPieces(ps[1..])|
            case Escape(c) =>
              |s| >= 2 && s[0] == '\\' && s[2..] == tail && |PrintPieces(ps)| == 2 + |PrintPieces(ps[1..])|
  {
    var s, tail := PrintPieces(ps) + "\"" + rest, PrintPieces(ps[1..]) + "\"" + rest;
    match ps[0]
    case Plain(c) =>
      assert s == [c] + tail;
    case Escape(c) =>
      assert s == ['\\', c] + tail;
  }

  lemma LastPiece(rest: string)
    ensures var s := PrintPieces([]) + "\"" + rest; s[0] == '"' && s[1..] == rest && PrintPieces([]) == ""
  {
  }

  lemma {:induction false} StringEnds(ps: seq<Piece>, rest: string)
    requires PiecesOk(ps)
    ensures StringEnd(PrintPieces(ps) + "\"" + rest) == Some(|PrintPieces(ps)| + 1)
  {
    hide PrintPieces;
    if ps == [] {
      LastPiece(rest);
    } else {
      StringEnds(ps[1..], rest);
      FirstPiece(ps, rest);
    }
  }

  lemma {:induction false} DeepString(ps: seq<Piece>, rest: string, depth: int)
    requires PiecesOk(ps)
    ensures DeepEnd(PrintPieces(ps) + "\"" + rest, depth, true) ==
            Plus(|PrintPieces(ps)| + 1, DeepEnd(rest, depth, false))
  {
    hide PrintPieces;
    if ps == [] {
      LastPiece(rest);
    } else {
      DeepString(ps[1..], rest, depth);
      FirstPiece(ps, rest);
    }
  }

  lemma {:induction false} DeepText(t: string, rest: string, depth: int)
    requires Loose(t)
    ensures DeepEnd(t + rest, depth, false) == Plus(|t|, DeepEnd(rest, depth, false))
  {
    if t == "" {
      assert t + rest == rest;
    } else {
      assert (t + rest)[1..] == t[1..] + rest;
      DeepText(t[1..], rest, depth);
    }
  }

  /** Inside a bracket, a whole value is passed over. */
  lemma {:induction false} DeepValue(v: Value, rest: string, depth: int)
    requires Ok(v) && depth >= 1
    ensures DeepEnd(Print(v) + rest, depth, false) == Plus(|Print(v)|, DeepEnd(rest, depth, false))
    decreases v, 1
  {
    match v
    case Text(s) => DeepText(s, rest, depth);
    case Quoted(ps) =>
      var s := Print(v) + rest;
      assert s[1..] == PrintPieces(ps) + "\"" + rest;
      DeepString(ps, rest, depth);
    case Nested(open, items, close) =>
      var s := Print(v) + rest;
      assert s[1..] == PrintAll(items) + ([close] + rest);
      DeepAll(v, items, [close] + rest, depth + 1);
      assert ([close] + rest)[1..] == rest;
  }

  lemma {:induction false} DeepAll(v: Value, vs: seq<Value>, rest: string, depth: int)
    requires depth >= 1 && v.Nested? && |vs| <= |v.items| && vs == v.items[|v.items| - |vs|..]
    requires forall i :: 0 <= i < |vs| ==> Ok(vs[i])
    ensures DeepEnd(PrintAll(vs) + rest, depth, false) == Plus(|PrintAll(vs)|, DeepEnd(rest, depth, false))
    decreases v, 0, |vs|
  {
    if vs == [] {
      assert PrintAll(vs) + rest == rest;
    } else {
      assert vs[0] == v.items[|v.items| - |vs|];
      assert vs[1..] == v.items[|v.items| - |vs[1..]|..];
      DeepAll(v, vs[1..], rest, depth);
      DeepValue(vs[0], PrintAll(vs[1..]) + rest, depth);
      assert PrintAll(vs) + rest == Print(vs[0]) + (PrintAll(vs[1..]) + rest);
    }
  }

  lemma {:induction false} TextEnds(t: string, rest: string)
    requires forall i :: 0 <= i < |t| ==> t[i] != ',' && t[i] != '}'
    requires rest != "" && (rest[0] == ',' || rest[0] == '}')
    ensures TextEnd(t + rest) == Some(|t|)
  {
    if t == "" {
      assert t + rest == rest;
    } else {
      assert (t + rest)[1..] == t[1..] + rest;
      TextEnds(t[1..], rest);
    }
  }

  /** The reader stops exactly at the end of any value that a comma or brace follows. */
  lemma ValueEnds(v: Value, rest: string)
    requires TopOk(v) && rest != "" && (rest[0] == ',' || rest[0] == '}')
    ensures Print(v) != "" && ValueEnd(Print(v) + rest) == Some(|Print(v)|)
  {
    var s := Print(v) + rest;
    match v
    case Text(t) =>
      TextEnds(t, rest);
    case Quoted(ps) =>
      assert s[1..] == PrintPieces(ps) + "\"" + rest;
      StringEnds(ps, rest);
    case Nested(open, items, close) =>
      assert s[1..] == PrintAll(items) + ([close] + rest);
      assert v.items[0..] == items;
      DeepAll(v, items, [close] + rest, 1);
      assert DeepEnd([close] + rest, 1, false) == Some(1);
  }

  lemma StringStep(b: string, i: nat)
    requires i < |b|
    ensures StringEnd(b[i..]) ==
            if b[i] == '"' then Some(1)
            else if b[i] == '\\' then if i + 1 == |b| then None else Plus(2, StringEnd(b[i + 2..]))
            else Plus(1, StringEnd(b[i + 1..]))
  {
    assert b[i..][1..] == b[i + 1..];
    assert i + 1 < |b| ==> b[i..][2..] == b[i + 2..];
  }

  method StringScan(b: string, start: nat) returns (r: Option<nat>)
    requires start < |b|
    ensures r == Plus(start + 1, StringEnd(b[start + 1..]))
  {
    var i := start + 1;
    ghost var all := StringEnd(b[start + 1..]);
    NoEnd(b);
    hide StringEnd;
    while i < |b|
      invariant start + 1 <= i <= |b| + 1
      invariant i <= |b| ==> all == Plus(i - (start + 1), StringEnd(b[i..]))
      invariant i == |b| + 1 ==> all == None
    {
      StringStep(b, i);
      if b[i] == '\\' {
        i := i + 1;
      } else if b[i] == '"' {
        return Some(i + 1);
      }
      i := i + 1;
    }
    return None;
  }

  lemma NoEnd(b: string)
    ensures StringEnd(b[|b|..]) == None && forall d, q :: DeepEnd(b[|b|..], d, q) == None
  {
  }

  lemma DeepStep(b: string, i: nat, depth: int, inString: bool)
    requires i < |b|
    ensures DeepEnd(b[i..], depth, inString) ==
            if inString then
              if b[i] == '\\' then if i + 1 == |b| then None else Plus(2, DeepEnd(b[i + 2..], depth, true))
              else Plus(1, DeepEnd(b[i + 1..], depth, b[i] != '"'))
            else if b[i] == '"' then Plus(1, DeepEnd(b[i + 1..], depth, true))
            else if Opens(b[i]) then Plus(1, DeepEnd(b[i + 1..], depth + 1, false))
            else if Closes(b[i]) then if depth == 1 then Some(1) else Plus(1, DeepEnd(b[i + 1..], depth - 1, false))
            else Plus(1, DeepEnd(b[i + 1..], depth, false))
  {
    assert b[i..][1..] == b[i + 1..];
    assert i + 1 < |b| ==> b[i..][2..] == b[i + 2..];
  }

  method DeepScan(b: string, start: nat) returns (r: Option<nat>)
    requires start < |b|
    ensures r == Plus(start, DeepEnd(b[start..], 0, false))
  {
    var depth, inString, i := 0, false, start;
    ghost var all := DeepEnd(b[start..], 0, false);
    NoEnd(b);
    hide DeepEnd;
    while i < |b|
      invariant start <= i <= |b| + 1
      invariant i <= |b| ==> all == Plus(i - start, DeepEnd(b[i..], depth, inString))
      invariant i == |b| + 1 ==> all == None
    {
      DeepStep(b, i, depth, inString);
      if inString {
        if b[i] == '\\' {
          i := i + 1;
        } else if b[i] == '"' {
          inString := false;
        }
      } else if b[i] == '"' {
        inString := true;
      } else if Opens(b[i]) {
        depth := depth + 1;
      } else if Closes(b[i]) {
        depth := depth - 1;
        if depth == 0 {
          return Some(i + 1);
        }
      }
      i := i + 1;
    }
    return None;
  }

  method TextScan(b: string, start: nat) returns (r: Option<nat>)
    requires start < |b|
    ensures r == var n := TextEnd(b[start..]); if n == Some(0) then None else Plus(start, n)
  {
    var i := start;
    ghost var all := TextEnd(b[start..]);
    while i < |b|
      invariant start <= i <= |b| && all == Plus(i - start, TextEnd(b[i..]))
    {
      assert b[i..][1..] == b[i + 1..];
      if b[i] == ',' || b[i] == '}' {
        return if i > start then Some(i) else None;
      }
      i := i + 1;
    }
    return None;
  }

  /** Where the value that starts at `start` ends. */
  method JsonValueEnd(b: string, start: nat) returns (r: Option<nat>)
    ensures r == if start >= |b| then None else Plus(start, ValueEnd(b[start..]))
  {
    if start >= |b| {
      return None;
    }
    if b[start] == '"' {
      r := StringScan(b, start);
      assert b[start..][1..] == b[start + 1..];
    } else if Opens(b[start]) {
      r := DeepScan(b, start);
    } else {
      r := TextScan(b, start);
    }
  }

  // ---- numbers ----

  const MAX_U64: int := 0xFFFF_FFFF_FFFF_FFFF

  const MAX_I64: int := 0x7FFF_FFFF_FFFF_FFFF

  /** The digits from `start` on. */
  function DigitRun(b: string): string {
    if b == "" || !IsDigit(b[0]) then "" else [b[0]] + DigitRun(b[1..])
  }

  lemma {:induction false} DigitRunIs(b: string)
    ensures Digits(DigitRun(b)) && DigitRun(b) <= b
    ensures |DigitRun(b)| < |b| ==> !IsDigit(b[|DigitRun(b)|])
  {
    if b != "" && IsDigit(b[0]) {
      DigitRunIs(b[1..]);
      assert b == [b[0]] + b[1..];
    }
  }

  lemma {:induction false} DigitRunOf(d: string, rest: string)
    requires Digits(d) && (rest == "" || !IsDigit(rest[0]))
    ensures DigitRun(d + rest) == d
  {
    if d == "" {
      assert d + rest == rest;
    } else {
      assert (d + rest)[1..] == d[1..] + rest;
      DigitRunOf(d[1..], rest);
    }
  }

  lemma RunAt(b: string, start: nat)
    requires start <= |b|
    ensures var d := DigitRun(b[start..]);
            && Digits(d) && start + |d| <= |b| && (forall k :: 0 <= k < |d| ==> d[k] == b[start + k])
            && (start + |d| < |b| ==> !IsDigit(b[start + |d|]))
            && forall j :: start <= j < start + |d| ==> IsDigit(b[j])
  {
    DigitRunIs(b[start..]);
    var d := DigitRun(b[start..]);
    forall j | start <= j < start + |d| ensures IsDigit(b[j]) {
      assert d[j - start] == b[start..][j - start];
    }
  }

  lemma RunEnds(b: string, start: nat, i: nat)
    requires start <= |b| && start <= i <= start + |DigitRun(b[start..])| && (i >= |b| || !IsDigit(b[i]))
    ensures i == start + |DigitRun(b[start..])|
  {
    RunAt(b, start);
  }

  /** Overflow is tested before each digit is added; the test is exact. */
  lemma FitsExactly(v: nat, d: nat, max: nat)
    requires d < 10 <= max
    ensures v > (max - d) / 10 <==> 10 * v + d > max
  {
  }

  lemma {:induction false} ValuePrefix(d: string, k: nat)
    requires Digits(d) && k <= |d|
    ensures Digits(d[..k]) && Decimal.Value(d[..k]) <= Decimal.Value(d)
    decreases |d| - k
  {
    if k < |d| {
      ValuePrefix(d, k + 1);
      assert d[..k + 1][..k] == d[..k];
    } else {
      assert d[..k] == d;
    }
  }

  /** A run of digits, accepted exactly when there is one and its value fits. */
  method ParseDecimal(b: string, start: nat, max: nat) returns (r: Option<(nat, nat)>)
    requires start <= |b| && max >= 10
    ensures var d := DigitRun(b[start..]);
            Digits(d) && start + |d| <= |b| && r ==
                if d != "" && Decimal.Value(d) <= max then Some((Decimal.Value(d), start + |d|)) else None
  {
    ghost var d := DigitRun(b[start..]);
    RunAt(b, start);
    var v, i := 0, start;
    while i < |b| && IsDigit(b[i])
      invariant start <= i <= start + |d| <= |b| && Digits(d[..i - start]) && v == Decimal.Value(d[..i - start]) <= max
    {
      var n := i - start;
      var digit := (b[i] - '0') as int;
      assert d[..n + 1][..n] == d[..n] && d[n] == b[i];
      ValuePrefix(d, n + 1);
      FitsExactly(v, digit, max);
      if v > (max - digit) / 10 {
        return None;
      }
      v := 10 * v + digit;
      i := i + 1;
    }
    RunEnds(b, start, i);
    assert d[..|d|] == d;
    if i == start {
      return None;
    }
    return Some((v, i));
  }

  // ---- whole frames ----

  /** What a related channel's record holds; no meta is an empty text. */
  datatype Fields = Fields(mainLT: nat, payload: string, meta: string, ts: int)

  /** The object as it is written: m, p, then t and x if there are any. */
  function Encode(mainLT: nat, payload: string, meta: string, ts: int): string {
    "{\"m\":" + Itoa(mainLT) + ",\"p\":" + payload + Trailer(meta, ts)
  }

  function Trailer(meta: string, ts: int): string {
    (if ts == 0 then "" else ",\"t\":" + (if ts < 0 then "-" + Itoa(-ts) else Itoa(ts)))
    + (if meta == "" then "" else ",\"x\":" + meta) + "}"
  }

  /** After the payload: an optional timestamp, an optional meta, and the brace. */
  method DecodeTrailer(f: string, at: nat) returns (r: Option<(int, string)>)
    requires at <= |f|
    ensures r == TrailerOf(f[at..])
  {
    hide ValueEnd, DigitRun, Decimal.Value;
    ghost var s := f[at..];
    var end := at;
    if end + 1 == |f| && f[end] == '}' {
      return Some((0, ""));
    }
    var ts := 0;
    if end + 5 < |f| && f[end..end + 5] == ",\"t\":" {
      var i := end + 5;
      assert f[i..] == s[5..] && s[..5] == f[end..end + 5];
      var d := ParseDecimal(f, i, MAX_I64);
      if d.None? {
        return None;
      }
      ts := d.value.0;
      i := d.value.1;
      ghost var n := 5 + |DigitRun(s[5..])|;
      assert i == end + n && f[i..] == s[n..];
      if i + 1 == |f| && f[i] == '}' {
        return Some((ts, ""));
      }
      end := i;
    }
    r := DecodeMeta(f, end, ts);
  }

  method DecodeMeta(f: string, end: nat, ts: int) returns (r: Option<(int, string)>)
    requires end <= |f|
    ensures r == MetaOf(f[end..], ts)
  {
    hide ValueEnd;
    ghost var s := f[end..];
    if end + 5 >= |f| || f[end..end + 5] != ",\"x\":" {
      return None;
    }
    assert s[..5] == f[end..end + 5] && s[5..] == f[end + 5..];
    var i := end + 5;
    var stop := JsonValueEnd(f, i);
    if stop.None? || stop.value + 1 != |f| || f[stop.value] != '}' {
      return None;
    }
    assert f[i..stop.value] == s[5..stop.value - end];
    return Some((ts, f[i..stop.value]));
  }

  function MetaOf(s: string, ts: int): Option<(int, string)> {
    if |s| <= 5 || s[..5] != ",\"x\":" then None
    else
      var n := ValueEnd(s[5..]);
      if n.None? || 5 + n.value + 1 != |s| || s[5 + n.value] != '}' then None
      else Some((ts, s[5..5 + n.value]))
  }

  function TrailerOf(s: string): Option<(int, string)> {
    if s == "}" then Some((0, ""))
    else if |s| > 5 && s[..5] == ",\"t\":" then
      var d := DigitRun(s[5..]);
      DigitRunIs(s[5..]);
      if d == "" || Decimal.Value(d) > MAX_I64 then None
      else if s[5 + |d|..] == "}" then Some((Decimal.Value(d), ""))
      else MetaOf(s[5 + |d|..], Decimal.Value(d))
    else MetaOf(s, 0)
  }

  /** Base64 decoding of an opaque payload, as a given function. */
  type Decoder = string -> Option<string>

  function OpaqueOf(text: string, b64: Decoder): Option<string> {
    if |text| < 2 || text[0] != '"' || text[|text| - 1] != '"' then None else b64(text[1..|text| - 1])
  }

  /** The payload and what follows it. */
  function BodyOf(mainLT: nat, s: string, wrapped: bool, b64: Decoder): Option<Fields> {
    var n := ValueEnd(s);
    if n.None? || n.value > |s| then None
    else
      var payload := if wrapped then OpaqueOf(s[..n.value], b64) else Some(s[..n.value]);
      var trailer := TrailerOf(s[n.value..]);
      if payload.None? || trailer.None? then None
      else Some(Fields(mainLT, payload.value, trailer.value.1, trailer.value.0))
  }

  function KeyedOf(mainLT: nat, s: string, b64: Decoder): Option<Fields> {
    if |s| >= 5 && s[..5] == ",\"p\":" then BodyOf(mainLT, s[5..], false, b64)
    else if |s| >= 7 && s[..7] == ",\"p64\":" then BodyOf(mainLT, s[7..], true, b64)
    else None
  }

  /** What the fast decoder makes of a frame; `valid` is the JSON library's verdict. */
  function DecodeOf(f: string, valid: bool, b64: Decoder): Option<Fields> {
    if |f| <= 5 || f[..5] != "{\"m\":" || !valid then None
    else
      var d := DigitRun(f[5..]);
      DigitRunIs(f[5..]);
      if d == "" || Decimal.Value(d) > MAX_U64 then None
      else KeyedOf(Decimal.Value(d), f[5 + |d|..], b64)
  }

  lemma {:induction false} EndInside(s: string)
    ensures ValueEnd(s).Some? ==> ValueEnd(s).value <= |s|
  {
    if s != "" {
      StringInside(s[1..]);
      DeepInside(s, 0, false);
      TextInside(s);
    }
  }

  lemma {:induction false} StringInside(s: string)
    ensures StringEnd(s).Some? ==> StringEnd(s).value <= |s|
  {
    if s != "" && s[0] != '"' {
      if s[0] != '\\' {
        StringInside(s[1..]);
      } else if |s| > 1 {
        StringInside(s[2..]);
      }
    }
  }

  lemma {:induction false} DeepInside(s: string, depth: int, inString: bool)
    ensures DeepEnd(s, depth, inString).Some? ==> DeepEnd(s, depth, inString).value <= |s|
    decreases |s|
  {
    if s != "" {
      DeepInside(s[1..], depth, true);
      DeepInside(s[1..], depth, false);
      DeepInside(s[1..], depth + 1, false);
      DeepInside(s[1..], depth - 1, false);
      if |s| > 1 {
        DeepInside(s[2..], depth, true);
      }
    }
  }

  lemma {:induction false} TextInside(s: string)
    ensures TextEnd(s).Some? ==> TextEnd(s).value <= |s|
  {
    if s != "" {
      TextInside(s[1..]);
    }
  }

  method DecodeBody(f: string, at: nat, mainLT: nat, wrapped: bool, b64: Decoder) returns (r: Option<Fields>)
    requires at <= |f|
    ensures r == BodyOf(mainLT, f[at..], wrapped, b64)
  {
    hide ValueEnd, TrailerOf;
    ghost var s := f[at..];
    EmptyEnds();
    EndInside(s);
    var end := JsonValueEnd(f, at);
    if end.None? {
      return None;
    }
    ghost var n := end.value - at;
    assert f[at..end.value] == s[..n] && f[end.value..] == s[n..];
    var payload := f[at..end.value];
    if wrapped {
      var decoded := OpaqueOf(payload, b64);
      if decoded.None? {
        return None;
      }
      payload := decoded.value;
    }
    var trailer := DecodeTrailer(f, end.value);
    if trailer.None? {
      return None;
    }
    return Some(Fields(mainLT, payload, trailer.value.1, trailer.value.0));
  }

  lemma EmptyEnds()
    ensures ValueEnd("") == None
  {
  }

  method FastDecodeFrame(f: string, valid: bool, b64: Decoder) returns (r: Option<Fields>)
    ensures r == DecodeOf(f, valid, b64)
  {
    hide BodyOf, DigitRun, Decimal.Value;
    if |f| <= 5 || f[..5] != "{\"m\":" || !valid {
      return None;
    }
    var d := ParseDecimal(f, 5, MAX_U64);
    if d.None? {
      return None;
    }
    var i := d.value.1;
    ghost var s := f[i..];
    if i + 5 <= |f| && f[i..i + 5] == ",\"p\":" {
      assert s[..5] == f[i..i + 5] && s[5..] == f[i + 5..];
      r := DecodeBody(f, i + 5, d.value.0, false, b64);
    } else if i + 7 <= |f| && f[i..i + 7] == ",\"p64\":" {
      assert s[..7] == f[i..i + 7] && s[7..] == f[i + 7..];
      assert s[..5] == f[i..i + 5];
      r := DecodeBody(f, i + 7, d.value.0, true, b64);
    } else {
      assert i + 5 <= |f| ==> s[..5] == f[i..i + 5];
      assert i + 7 <= |f| ==> s[..7] == f[i..i + 7];
      return None;
    }
  }

  // ---- encoding and decoding agree ----

  function MetaText(meta: Option<Value>): string {
    if meta.Some? then Print(meta.value) else ""
  }

  function MetaTail(meta: Option<Value>): string {
    if meta.Some? then ",\"x\":" + Print(meta.value) + "}" else "}"
  }

  lemma TrailerIs(meta: Option<Value>, ts: int)
    requires meta.Some? ==> TopOk(meta.value)
    ensures ts == 0 ==> Trailer(MetaText(meta), ts) == MetaTail(meta)
    ensures ts > 0 ==> Trailer(MetaText(meta), ts) == ",\"t\":" + Itoa(ts) + MetaTail(meta)
  {
    if meta.Some? {
      PrintSome(meta.value);
    }
    hide Print, Itoa;
  }

  lemma TailReads(meta: Option<Value>, ts: int)
    requires meta.Some? ==> TopOk(meta.value)
    ensures meta.Some? ==> MetaOf(MetaTail(meta), ts) == Some((ts, MetaText(meta))) && MetaTail(meta) != "}"
    ensures meta.Some? ==> |MetaTail(meta)| > 5 && MetaTail(meta)[..5] == ",\"x\":"
    ensures MetaTail(meta) != "" && !IsDigit(MetaTail(meta)[0])
  {
    if meta.Some? {
      MetaReads(meta.value, ts);
      PrintSome(meta.value);
      hide Print, MetaOf;
      assert MetaTail(meta)[..5] == ",\"x\":";
    }
  }

  lemma Cut(key: string, rest: string)
    ensures (key + rest)[..|key|] == key && (key + rest)[|key|..] == rest && |key + rest| == |key| + |rest|
  {
  }

  lemma StampedTrailer(d: string, m: string)
    requires Digits(d) && d != "" && Decimal.Value(d) <= MAX_I64 && m != "" && !IsDigit(m[0])
    ensures TrailerOf(",\"t\":" + (d + m)) ==
              if m == "}" then Some((Decimal.Value(d), "")) else MetaOf(m, Decimal.Value(d))
  {
    Cut(",\"t\":", d + m);
    DigitRunOf(d, m);
    hide MetaOf, DigitRun, Decimal.Value;
    var s := ",\"t\":" + (d + m);
    assert s[5..] == d + m && s[5 + |d|..] == m;
  }

  lemma UnstampedTrailer(m: string)
    requires m == "}" || (|m| > 5 && m[..5] == ",\"x\":")
    ensures TrailerOf(m) == if m == "}" then Some((0, "")) else MetaOf(m, 0)
  {
    hide MetaOf, DigitRun;
  }

  /** A trailer without a timestamp or with one that is not negative reads back. */
  lemma TrailerReads(meta: Option<Value>, ts: int)
    requires 0 <= ts <= MAX_I64 && (meta.Some? ==> TopOk(meta.value))
    ensures TrailerOf(Trailer(MetaText(meta), ts)) == Some((ts, MetaText(meta)))
  {
    hide Print, MetaOf, TopOk, Trailer, TrailerOf, Itoa, Decimal.Value, DigitRun;
    TrailerIs(meta, ts);
    TailReads(meta, ts);
    if ts > 0 {
      ItoaIs(ts);
      StampedTrailer(Itoa(ts), MetaTail(meta));
      Glue(",\"t\":", Itoa(ts), MetaTail(meta));
    } else {
      UnstampedTrailer(MetaTail(meta));
    }
  }

  lemma Glue(a: string, b: string, c: string)
    ensures a + b + c == a + (b + c)
  {
  }

  lemma PrintSome(v: Value)
    requires TopOk(v)
    ensures Print(v) != ""
  {
  }

  lemma MetaReads(v: Value, ts: int)
    requires TopOk(v)
    ensures MetaOf(",\"x\":" + Print(v) + "}", ts) == Some((ts, Print(v)))
  {
    var s := ",\"x\":" + Print(v) + "}";
    ValueEnds(v, "}");
    hide ValueEnd, Print;
    assert s[..5] == ",\"x\":" && s[5..] == Print(v) + "}";
    assert s[5..5 + |Print(v)|] == Print(v);
  }

  /** A negative timestamp is left to the slow path. */
  lemma NegativeTrailer(meta: string, ts: int)
    requires ts < 0
    ensures TrailerOf(Trailer(meta, ts)) == None
  {
    var s := Trailer(meta, ts);
    var rest := Itoa(-ts) + (if meta == "" then "" else ",\"x\":" + meta) + "}";
    assert s == ",\"t\":" + ("-" + rest);
    assert s[..5] == ",\"t\":" && s[5..] == "-" + rest;
    assert DigitRun("-" + rest) == "";
  }

  lemma TrailerStarts(meta: string, ts: int)
    ensures var t := Trailer(meta, ts); t != "" && (t[0] == ',' || t[0] == '}')
  {
  }

  lemma EncodeParts(m: nat, body: string, b64: Decoder)
    requires m <= MAX_U64 && body != "" && !IsDigit(body[0])
    ensures DecodeOf("{\"m\":" + (Itoa(m) + body), true, b64) == KeyedOf(m, body, b64)
  {
    ItoaIs(m);
    Cut("{\"m\":", Itoa(m) + body);
    DigitRunOf(Itoa(m), body);
    hide KeyedOf, DigitRun, Decimal.Value, Itoa;
    var f := "{\"m\":" + (Itoa(m) + body);
    assert f[5 + |Itoa(m)|..] == body;
  }

  lemma KeyedParts(m: nat, body: string, b64: Decoder)
    ensures KeyedOf(m, ",\"p\":" + body, b64) == BodyOf(m, body, false, b64)
    ensures KeyedOf(m, ",\"p64\":" + body, b64) == BodyOf(m, body, true, b64)
  {
    Cut(",\"p\":", body);
    Cut(",\"p64\":", body);
    hide BodyOf;
    assert (",\"p64\":" + body)[..5] == ",\"p64";
  }

  /** Decoding an encoded frame gives back every field exactly when the timestamp is not
      negative; otherwise the fast path declines. */
  lemma EncodeDecodes(m: nat, payload: Value, meta: Option<Value>, ts: int, b64: Decoder)
    requires m <= MAX_U64 && TopOk(payload) && (meta.Some? ==> TopOk(meta.value)) && ts <= MAX_I64
    ensures DecodeOf(Encode(m, Print(payload), MetaText(meta), ts), true, b64) ==
            if ts >= 0 then Some(Fields(m, Print(payload), MetaText(meta), ts)) else None
  {
    var p, t := Print(payload), Trailer(MetaText(meta), ts);
    hide ValueEnd, TrailerOf, Trailer, Print, Itoa, DecodeOf, KeyedOf, TopOk;
    TrailerStarts(MetaText(meta), ts);
    ValueEnds(payload, t);
    if ts >= 0 {
      TrailerReads(meta, ts);
    } else {
      NegativeTrailer(MetaText(meta), ts);
    }
    Cut(p, t);
    KeyedParts(m, p + t, b64);
    EncodeParts(m, ",\"p\":" + (p + t), b64);
    Flat("{\"m\":", Itoa(m), ",\"p\":", p, t);
  }

  lemma Flat(a: string, b: string, c: string, d: string, e: string)
    ensures a + b + c + d + e == a + (b + (c + (d + e)))
  {
  }

  /** An opaque payload comes back through its base64 text. */
  lemma OpaqueDecodes(m: nat, text: string, payload: string, meta: Option<Value>, ts: int, b64: Decoder)
    requires m <= MAX_U64 && (meta.Some? ==> TopOk(meta.value)) && 0 <= ts <= MAX_I64
    requires b64(text) == Some(payload) && forall i :: 0 <= i < |text| ==> text[i] != '"' && text[i] != '\\'
    ensures var line := "{\"m\":" + Itoa(m) + ",\"p64\":" + ("\"" + text + "\"") + Trailer(MetaText(meta), ts);
            DecodeOf(line, true, b64) ==
            Some(Fields(m, payload, MetaText(meta), ts))
  {
    var p, t := "\"" + text + "\"", Trailer(MetaText(meta), ts);
    PlainPieces(text);
    var v := Quoted(Pieces(text));
    assert Print(v) == p && TopOk(v);
    hide ValueEnd, TrailerOf, Trailer, Print, Itoa, DecodeOf, KeyedOf, TopOk, Pieces, PrintPieces;
    TrailerStarts(MetaText(meta), ts);
    TrailerReads(meta, ts);
    ValueEnds(v, t);
    Cut(p, t);
    assert p[1..|p| - 1] == text;
    KeyedParts(m, p + t, b64);
    EncodeParts(m, ",\"p64\":" + (p + t), b64);
    Flat("{\"m\":", Itoa(m), ",\"p64\":", p, t);
  }

  function Pieces(s: string): seq<Piece> {
    if s == "" then [] else [Plain(s[0])] + Pieces(s[1..])
  }

  lemma {:induction false} PlainPieces(s: string)
    requires forall i :: 0 <= i < |s| ==> s[i] != '"' && s[i] != '\\'
    ensures PiecesOk(Pieces(s)) && PrintPieces(Pieces(s)) == s
  {
    if s != "" {
      PlainPieces(s[1..]);
    }
  }
}
