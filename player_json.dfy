/** The text a player record becomes when the Redis store serialises it, and the parser that
    reads it back. The encoding follows the record's field order (`roomId`, `serverId`, `clientId`,
    `id`) and leaves out fields that are undefined; in strings only the quote and the backslash are
    escaped, and numbers are integers in decimal. */
module PlayerJson {
  import opened Model

  const RoomTag := "\"roomId\":"
  const ServerTag := "\"serverId\":"
  const ClientTag := ",\"clientId\":"
  const IdTag := ",\"id\":"

  // ---------------------------------------------------------------- strings

  /** The characters of `s` with `"` and `\` preceded by a backslash. */
  function Escape(s: string): string {
    if s == [] then []
    else (if s[0] == '"' || s[0] == '\\' then ['\\', s[0]] else [s[0]]) + Escape(s[1..])
  }

  /** A string literal. */
  function Quote(s: string): string {
    "\"" + Escape(s) + "\""
  }

  /** Reads an escaped string body up to its closing quote; the result is the string and the text
      after the quote. Only `\"` and `\\` are accepted as escapes. */
  function ReadBody(t: string): (r: Option<(string, string)>)
    ensures r.Some? ==> |r.value.1| <= |t| && (r.value.1 != [] ==> r.value.1[|r.value.1| - 1] == t[|t| - 1])
    decreases |t|
  {
    if t == [] then None
    else if t[0] == '"' then Some(([], t[1..]))
    else if t[0] == '\\' then
      if |t| < 2 || !(t[1] == '"' || t[1] == '\\') then None
      else match ReadBody(t[2..])
        case None => None
        case Some((s, rest)) => Some(([t[1]] + s, rest))
    else match ReadBody(t[1..])
      case None => None
      case Some((s, rest)) => Some(([t[0]] + s, rest))
  }

  /** Reads a string literal at the start of `t`. */
  function ReadQuoted(t: string): (r: Option<(string, string)>)
    ensures r.Some? ==> |r.value.1| <= |t| && (r.value.1 != [] ==> r.value.1[|r.value.1| - 1] == t[|t| - 1])
  {
    if t == [] || t[0] != '"' then None else ReadBody(t[1..])
  }

  lemma {:induction false} ReadBodyEscape(s: string, rest: string)
    ensures ReadBody(Escape(s) + "\"" + rest) == Some((s, rest))
  {
    if s == [] {
      assert Escape(s) + "\"" + rest == "\"" + rest;
    } else {
      var t := Escape(s) + "\"" + rest;
      ReadBodyEscape(s[1..], rest);
      if s[0] == '"' || s[0] == '\\' {
        assert t == ['\\', s[0]] + (Escape(s[1..]) + "\"" + rest);
        assert t[2..] == Escape(s[1..]) + "\"" + rest;
      } else {
        assert t == [s[0]] + (Escape(s[1..]) + "\"" + rest);
        assert t[1..] == Escape(s[1..]) + "\"" + rest;
      }
      assert [s[0]] + s[1..] == s;
    }
  }

  /** A quoted string is read back exactly, whatever text follows it. */
  lemma QuoteRoundTrip(s: string, rest: string)
    ensures ReadQuoted(Quote(s) + rest) == Some((s, rest))
  {
    var t := Quote(s) + rest;
    assert t[1..] == Escape(s) + "\"" + rest;
    ReadBodyEscape(s, rest);
  }

  // ---------------------------------------------------------------- numbers

  predicate IsDigit(c: char) {
    '0' <= c <= '9'
  }

  function DigitChar(d: nat): char
    requires d < 10
  {
    ('0' as int + d) as char
  }

  function DigitValue(c: char): nat
    requires IsDigit(c)
  {
    c as int - '0' as int
  }

  /** The decimal digits of `n`, most significant first, without leading zeros. */
  function Digits(n: nat): (r: string)
    ensures r != [] && forall i :: 0 <= i < |r| ==> IsDigit(r[i])
  {
    if n < 10 then [DigitChar(n)] else Digits(n / 10) + [DigitChar(n % 10)]
  }

  /** The value of a run of digits. */
  function ValueOf(ds: string): nat
    requires forall i :: 0 <= i < |ds| ==> IsDigit(ds[i])
  {
    if ds == [] then 0 else 10 * ValueOf(ds[..|ds| - 1]) + DigitValue(ds[|ds| - 1])
  }

  /** The length of the run of digits at the start of `t`. */
  function DigitSpan(t: string): (n: nat)
    ensures n <= |t| && forall i :: 0 <= i < n ==> IsDigit(t[i])
  {
    if t == [] || !IsDigit(t[0]) then 0 else 1 + DigitSpan(t[1..])
  }

  /** Reads a non-negative decimal number at the start of `t`. */
  function ReadNat(t: string): (r: Option<(nat, string)>)
    ensures r.Some? ==> |r.value.1| <= |t| && (r.value.1 != [] ==> r.value.1[|r.value.1| - 1] == t[|t| - 1])
  {
    var n := DigitSpan(t);
    if n == 0 then None else Some((ValueOf(t[..n]), t[n..]))
  }

  /** Reads an optionally negative decimal number at the start of `t`. */
  function ReadInt(t: string): (r: Option<(int, string)>)
    ensures r.Some? ==> |r.value.1| <= |t| && (r.value.1 != [] ==> r.value.1[|r.value.1| - 1] == t[|t| - 1])
  {
    if t != [] && t[0] == '-' then
      match ReadNat(t[1..])
      case None => None
      case Some((n, rest)) => Some((0 - n as int, rest))
    else
      match ReadNat(t)
      case None => None
      case Some((n, rest)) => Some((n, rest))
  }

  /** A number as `JSON.stringify` writes an integer. */
  function IntText(i: int): string {
    if i < 0 then "-" + Digits(-i) else Digits(i)
  }

  lemma {:induction false} ValueOfDigits(n: nat)
    ensures ValueOf(Digits(n)) == n
  {
    if n >= 10 {
      var ds := Digits(n);
      assert ds[..|ds| - 1] == Digits(n / 10);
      ValueOfDigits(n / 10);
    }
  }

  lemma {:induction false} DigitSpanOf(ds: string, rest: string)
    requires forall i :: 0 <= i < |ds| ==> IsDigit(ds[i])
    requires rest == [] || !IsDigit(rest[0])
    ensures DigitSpan(ds + rest) == |ds|
  {
    if ds == [] {
      assert ds + rest == rest;
    } else {
      assert (ds + rest)[1..] == ds[1..] + rest;
      DigitSpanOf(ds[1..], rest);
    }
  }

  /** A number is read back exactly when no digit follows it. */
  lemma IntRoundTrip(i: int, rest: string)
    requires rest == [] || !IsDigit(rest[0])
    ensures ReadInt(IntText(i) + rest) == Some((i, rest))
  {
    var m: nat := if i < 0 then -i else i;
    var ds := Digits(m);
    DigitSpanOf(ds, rest);
    ValueOfDigits(m);
    assert (ds + rest)[..|ds|] == ds && (ds + rest)[|ds|..] == rest;
    if i < 0 {
      assert (IntText(i) + rest)[1..] == ds + rest;
    } else {
      assert ds[0] != '-';
    }
  }

  // ---------------------------------------------------------------- records

  function RoomPart(roomId: Option<string>): string {
    match roomId
    case None => ""
    case Some(r) => RoomTag + Quote(r) + ","
  }

  function ClientPart(clientId: Option<int>): string {
    match clientId
    case None => ""
    case Some(c) => ClientTag + IntText(c)
  }

  /** `JSON.stringify(player)`. Parsing the text gives back exactly the player that was stored. */
  function Encode(p: Player): (r: string)
    ensures Decode(r) == Some(p)
  {
    var tail := ServerTag + (Quote(p.serverId) + (ClientPart(p.clientId) + (IdTag + (Quote(p.id) + "}"))));
    var t := "{" + (RoomPart(p.roomId) + tail);
    assert t[1..] == RoomPart(p.roomId) + tail;
    assert ServerTag <= tail;
    ReadRoomPart(p.roomId, tail);
    DecodeServerPart(p);
    t
  }

  /** Reads the optional `roomId` member and the comma after it. */
  function ReadRoom(t: string): (r: Option<(Option<string>, string)>)
    ensures r.Some? ==> |r.value.1| <= |t| && (r.value.1 != [] ==> r.value.1[|r.value.1| - 1] == t[|t| - 1])
  {
    if !(RoomTag <= t) then Some((None, t))
    else match ReadQuoted(t[|RoomTag|..])
      case None => None
      case Some((r, rest)) => if rest != [] && rest[0] == ',' then Some((Some(r), rest[1..])) else None
  }

  /** Reads the optional `clientId` member. */
  function ReadClient(t: string): (r: Option<(Option<int>, string)>)
    ensures r.Some? ==> |r.value.1| <= |t| && (r.value.1 != [] ==> r.value.1[|r.value.1| - 1] == t[|t| - 1])
  {
    if !(ClientTag <= t) then Some((None, t))
    else match ReadInt(t[|ClientTag|..])
      case None => None
      case Some((c, rest)) => Some((Some(c), rest))
  }

  /** `JSON.parse` of a stored player; `None` where parsing throws. Only a text between braces
      parses: a number, `null` or a string does not. */
  function Decode(t: string): (r: Option<Player>)
    ensures r.Some? ==> |t| >= 2 && t[0] == '{' && t[|t| - 1] == '}'
  {
    if t == [] || t[0] != '{' then None
    else match ReadRoom(t[1..])
      case None => None
      case Some((roomId, t1)) => DecodeServer(roomId, t1)
  }

  /** The rest of `Decode` from the `serverId` member on. */
  function DecodeServer(roomId: Option<string>, t: string): (r: Option<Player>)
    ensures r.Some? ==> t != [] && t[|t| - 1] == '}'
  {
    if !(ServerTag <= t) then None
    else match ReadQuoted(t[|ServerTag|..])
      case None => None
      case Some((serverId, t2)) =>
        match ReadClient(t2)
        case None => None
        case Some((clientId, t3)) => DecodeId(roomId, serverId, clientId, t3)
  }

  /** The rest of `Decode` from the `id` member on. */
  function DecodeId(roomId: Option<string>, serverId: string, clientId: Option<int>, t: string): (r: Option<Player>)
    ensures r.Some? ==> t != [] && t[|t| - 1] == '}'
  {
    if !(IdTag <= t) then None
    else match ReadQuoted(t[|IdTag|..])
      case None => None
      case Some((id, t4)) => if t4 != "}" then None else Some(Player(roomId, serverId, clientId, id))
  }

  lemma ReadRoomPart(roomId: Option<string>, rest: string)
    requires ServerTag <= rest
    ensures ReadRoom(RoomPart(roomId) + rest) == Some((roomId, rest))
  {
    match roomId
    case None =>
      assert RoomPart(roomId) + rest == rest;
      assert rest[1] == 's' && RoomTag[1] == 'r';
    case Some(r) =>
      var t := RoomPart(roomId) + rest;
      assert t == RoomTag + (Quote(r) + ("," + rest));
      assert t[|RoomTag|..] == Quote(r) + ("," + rest);
      QuoteRoundTrip(r, "," + rest);
      assert ("," + rest)[1..] == rest;
  }

  lemma ReadClientPart(clientId: Option<int>, rest: string)
    requires IdTag <= rest
    ensures ReadClient(ClientPart(clientId) + rest) == Some((clientId, rest))
  {
    match clientId
    case None =>
      assert ClientPart(clientId) + rest == rest;
      assert rest[2] == 'i' && ClientTag[2] == 'c';
    case Some(c) =>
      var t := ClientPart(clientId) + rest;
      assert t == ClientTag + (IntText(c) + rest);
      assert t[|ClientTag|..] == IntText(c) + rest;
      assert rest[0] == ',';
      IntRoundTrip(c, rest);
  }

  lemma DecodeIdPart(p: Player)
    ensures DecodeId(p.roomId, p.serverId, p.clientId, IdTag + (Quote(p.id) + "}")) == Some(p)
  {
    var t := IdTag + (Quote(p.id) + "}");
    assert IdTag <= t;
    assert t[|IdTag|..] == Quote(p.id) + "}";
    QuoteRoundTrip(p.id, "}");
  }

  lemma DecodeServerPart(p: Player)
    ensures DecodeServer(p.roomId, ServerTag + (Quote(p.serverId) + (ClientPart(p.clientId) + (IdTag + (Quote(p.id) + "}"))))) == Some(p)
  {
    var tail3 := IdTag + (Quote(p.id) + "}");
    var tail2 := ClientPart(p.clientId) + tail3;
    var t := ServerTag + (Quote(p.serverId) + tail2);
    assert ServerTag <= t;
    assert t[|ServerTag|..] == Quote(p.serverId) + tail2;
    QuoteRoundTrip(p.serverId, tail2);
    assert IdTag <= tail3;
    ReadClientPart(p.clientId, tail3);
    DecodeIdPart(p);
  }

  /** Different players are stored as different texts. */
  lemma EncodeInjective(p: Player, q: Player)
    requires Encode(p) == Encode(q)
    ensures p == q
  {
  }
}
