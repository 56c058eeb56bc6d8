/** RTSP messages as RtspParser.c writes and reads them, and that reading undoes writing. */
module RtspMessage {
  import opened Wrappers
  import opened Gf256

  const NUL: Byte := 0
  const LF: Byte := 10
  const CR: Byte := 13
  const SPACE: Byte := 32
  const COLON: Byte := 58

  type Text = seq<Byte>

  const CRLF: Text := [CR, LF]
  // The delimiters of the start line, of option names, and of contents.
  const DELIM: Text := [SPACE, CR, LF]
  const OPTION_DELIM: Text := [SPACE, COLON, CR, LF]
  const END: Text := [CR, LF]
  // "RTSP", "RTSP/1.0" and "CSeq".
  const RTSP: Text := [82, 84, 83, 80]
  const PROTOCOL: Text := [82, 84, 83, 80, 47, 49, 46, 48]
  const CSEQ: Text := [67, 83, 101, 113]

  const SEQ_INVALID := -1

  datatype Start = Request(command: Text, target: Text) | Response(statusCode: int, statusString: Text)

  datatype Item = Item(name: Text, content: Text)

  datatype Message = Message(start: Start, protocol: Text, options: seq<Item>, payload: Option<Text>)

  // ----- numbers

  function Digit(d: nat): Byte
    requires d < 10
  {
    48 + d
  }

  /** A number in decimal, as snprintf writes it. */
  function Decimal(n: nat): (t: Text)
    ensures t != []
  {
    if n < 10 then [Digit(n)] else Decimal(n / 10) + [Digit(n % 10)]
  }

  function Written(n: int): Text {
    if n < 0 then [45] + Decimal(-n) else Decimal(n)
  }

  predicate IsDigit(b: Byte) { 48 <= b <= 57 }

  predicate AllDigits(t: Text) {
    forall i :: 0 <= i < |t| ==> IsDigit(t[i])
  }

  function ValueOf(b: Byte): nat
    requires IsDigit(b)
  {
    (b as int) - 48
  }

  /** The value of the digits at the front. */
  function Digits(t: Text, value: nat): nat {
    if t != [] && IsDigit(t[0]) then Digits(t[1..], 10 * value + ValueOf(t[0])) else value
  }

  predicate IsSpace(b: Byte) { b == SPACE || 9 <= b <= 13 }

  function SkipSpaces(t: Text): Text {
    if t != [] && IsSpace(t[0]) then SkipSpaces(t[1..]) else t
  }

  /** atoi. */
  function Read(t: Text): int {
    var u := SkipSpaces(t);
    if u != [] && u[0] == 45 then -(Digits(u[1..], 0) as int)
    else if u != [] && u[0] == 43 then Digits(u[1..], 0)
    else Digits(u, 0)
  }

  lemma {:induction false} DigitsSnoc(t: Text, value: nat, d: Byte)
    requires AllDigits(t) && IsDigit(d)
    ensures Digits(t + [d], value) == 10 * Digits(t, value) + ValueOf(d)
    decreases |t|
  {
    if t == [] {
      assert [d][1..] == [];
    } else {
      assert (t + [d])[1..] == t[1..] + [d];
      DigitsSnoc(t[1..], 10 * value + ValueOf(t[0]), d);
    }
  }

  lemma {:induction false} DecimalReads(n: nat)
    ensures AllDigits(Decimal(n)) && Digits(Decimal(n), 0) == n
  {
    if n < 10 {
      assert [Digit(n)][1..] == [];
    } else {
      DecimalReads(n / 10);
      DigitsSnoc(Decimal(n / 10), 0, Digit(n % 10));
    }
  }

  lemma WrittenReads(n: int)
    ensures Read(Written(n)) == n
  {
    if n < 0 {
      DecimalReads(-n);
      assert ([45] + Decimal(-n))[1..] == Decimal(-n);
    } else {
      DecimalReads(n);
      assert IsDigit(Decimal(n)[0]);
    }
  }

  // ----- writing

  function OptionText(o: Item): Text { o.name + [COLON, SPACE] + o.content + CRLF }

  function OptionsText(options: seq<Item>): Text {
    if options == [] then [] else OptionText(options[0]) + OptionsText(options[1..])
  }

  function StartText(m: Message): Text {
    match m.start
    case Request(command, target) => command + [SPACE] + target + [SPACE] + m.protocol + CRLF
    case Response(code, status) => m.protocol + [SPACE] + Written(code) + [SPACE] + status + CRLF
  }

  function PayloadText(payload: Option<Text>): Text {
    match payload
    case None => []
    case Some(text) => text
  }

  /** serializeRtspMessage. */
  function Serialize(m: Message): Text {
    StartText(m) + OptionsText(m.options) + CRLF + PayloadText(m.payload)
  }

  // ----- tokens

  /** A token, whether the string ended with it, and what comes behind the byte that ended it. */
  datatype Token = Token(text: Text, last: bool, after: Text)

  function SkipDelims(s: Text, delims: Text): (r: Text)
    ensures |r| <= |s| && (r != [] ==> r[0] !in delims)
  {
    if s != [] && s[0] in delims then SkipDelims(s[1..], delims) else s
  }

  /** How many bytes the token at the front has. */
  function TokenLength(s: Text, delims: Text): (n: nat)
    ensures n <= |s|
  {
    if s == [] || s[0] == NUL || s[0] in delims then 0 else 1 + TokenLength(s[1..], delims)
  }

  /** strtok_r. */
  function NextToken(s: Text, delims: Text): (t: Option<Token>)
    ensures t.Some? ==> t.value.text != [] && |t.value.after| < |s|
  {
    var u := SkipDelims(s, delims);
    if u == [] || u[0] == NUL then None
    else
      var n := TokenLength(u, delims);
      Some(Token(u[..n], n == |u| || u[n] == NUL, if n < |u| then u[n + 1..] else []))
  }

  /** Where the next search starts: it finds nothing any more once the string has ended. */
  function RestOf(t: Token): (r: Text)
    ensures |r| <= |t.after|
  {
    if t.last then [] else t.after
  }

  // ----- reading

  /** insertOption: a name that is there already gets the new content. */
  function Insert(options: seq<Item>, o: Item): seq<Item> {
    if options == [] then [o]
    else if options[0].name == o.name then [options[0].(content := o.content)] + options[1..]
    else [options[0]] + Insert(options[1..], o)
  }

  /** getOptionContent. */
  function Content(options: seq<Item>, name: Text): Option<Text> {
    if options == [] then None
    else if options[0].name == name then Some(options[0].content)
    else Content(options[1..], name)
  }

  function SequenceNumber(options: seq<Item>): int {
    match Content(options, CSEQ)
    case None => SEQ_INVALID
    case Some(content) => Read(content)
  }

  predicate StartsWith(s: Text, prefix: Text) {
    |prefix| <= |s| && s[..|prefix|] == prefix
  }

  /** What the bytes behind a content say: the message goes on, or ends, and with what payload. The last two
      bytes in front of the payload may be missing. */
  datatype Ending = GoesOn | Ends(payload: Option<Text>)

  function EndingOf(s: Text): Ending {
    if StartsWith(s, [LF, NUL]) then Ends(None)
    else if StartsWith(s, [LF, CR, NUL]) then Ends(None)
    else if StartsWith(s, [LF, CR, LF]) then
      Ends(if |s| > 3 && s[3] != NUL then Some(s[3..|s| - 1]) else None)
    else GoesOn
  }

  datatype Parsed = Malformed | Parsed(message: Message, sequenceNumber: int)

  /** The next option, and the token of its content. The first byte of the content is a blank by protocol. */
  function ReadItem(s: Text): (r: Option<(Item, Token)>)
    ensures r.Some? ==> |r.value.1.after| < |s|
  {
    var name := NextToken(s, OPTION_DELIM);
    if name == None then None
    else
      var content := NextToken(RestOf(name.value), END);
      if content == None then None else Some((Item(name.value.text, content.value.text[1..]), content.value))
  }

  /** The options and the payload; s is the rest of the message with its closing NUL. */
  function ReadOptions(s: Text, options: seq<Item>): Option<(seq<Item>, Option<Text>)>
    decreases |s|
  {
    var item := ReadItem(s);
    if item == None then None
    else
      var all := Insert(options, item.value.0);
      match EndingOf(item.value.1.after)
      case Ends(payload) => Some((all, payload))
      case GoesOn => ReadOptions(RestOf(item.value.1), all)
  }

  /** The last part of the start line: a status text runs to the end of the line. */
  function ReadThird(first: Text, second: Text, s: Text): Option<(Start, Text, Text)> {
    if StartsWith(first, RTSP) then
      var status := NextToken(s, END);
      if status == None then None else Some((Response(Read(second), status.value.text), first, RestOf(status.value)))
    else
      var protocol := NextToken(s, DELIM);
      if protocol == None then None else Some((Request(first, second), protocol.value.text, RestOf(protocol.value)))
  }

  function ReadSecond(first: Text, s: Text): Option<(Start, Text, Text)> {
    var second := NextToken(s, DELIM);
    if second == None then None else ReadThird(first, second.value.text, RestOf(second.value))
  }

  /** The start line, and the rest of the message. */
  function ReadStart(s: Text): Option<(Start, Text, Text)> {
    var first := NextToken(s, DELIM);
    if first == None then None else ReadSecond(first.value.text, RestOf(first.value))
  }

  /** parseRtspMessage. */
  function Parse(bytes: Text): Parsed {
    var start := ReadStart(bytes + [NUL]);
    if start == None || start.value.1 != PROTOCOL then Malformed
    else
      var rest := ReadOptions(start.value.2, []);
      if rest == None then Malformed
      else Parsed(Message(start.value.0, PROTOCOL, rest.value.0, rest.value.1), SequenceNumber(rest.value.0))
  }

  // ----- reading undoes writing

  /** Free of the bytes, and of NUL. */
  predicate FreeOf(t: Text, bytes: Text) {
    forall i :: 0 <= i < |t| ==> t[i] != NUL && t[i] !in bytes
  }

  predicate OptionOk(o: Item) {
    o.name != [] && FreeOf(o.name, OPTION_DELIM) && FreeOf(o.content, END)
  }

  predicate StartOk(m: Message) {
    m.protocol == PROTOCOL &&
    match m.start
    case Request(command, target) =>
      command != [] && FreeOf(command, DELIM) && !StartsWith(command, RTSP) && target != [] && FreeOf(target, DELIM)
    case Response(code, status) => status != [] && FreeOf(status, END)
  }

  predicate OptionsOk(options: seq<Item>) {
    forall i :: 0 <= i < |options| ==> OptionOk(options[i])
  }

  predicate DistinctNames(options: seq<Item>) {
    forall i, j :: 0 <= i < j < |options| ==> options[i].name != options[j].name
  }

  /** The messages that can be written so that they can be read. */
  predicate Serializable(m: Message) {
    && StartOk(m) && m.options != []
    && OptionsOk(m.options)
    && DistinctNames(m.options)
    && PayloadOk(m.payload)
  }

  lemma {:induction false} TokenFound(t: Text, d: Byte, s: Text, delims: Text)
    requires FreeOf(t, delims) && d in delims && d != NUL
    ensures TokenLength(t + [d] + s, delims) == |t|
    decreases |t|
  {
    if t == [] {
      assert (t + [d] + s)[0] == d;
    } else {
      assert (t + [d] + s)[1..] == t[1..] + [d] + s;
      TokenFound(t[1..], d, s, delims);
    }
  }

  /** A token in front of a delimiter is what strtok finds. */
  lemma TokenThere(t: Text, d: Byte, s: Text, delims: Text)
    requires t != [] && FreeOf(t, delims) && d in delims && d != NUL
    ensures NextToken(t + [d] + s, delims) == Some(Token(t, false, s))
  {
    var all := t + [d] + s;
    assert all[0] == t[0];
    TokenFound(t, d, s, delims);
    assert all[..|t|] == t && all[|t| + 1..] == s;
  }

  lemma SkipOne(b: Byte, s: Text, delims: Text)
    requires b in delims
    ensures NextToken([b] + s, delims) == NextToken(s, delims)
  {
    assert ([b] + s)[1..] == s;
  }

  lemma {:induction false} InsertNew(options: seq<Item>, o: Item)
    requires forall i :: 0 <= i < |options| ==> options[i].name != o.name
    ensures Insert(options, o) == options + [o]
    decreases |options|
  {
    if options != [] { InsertNew(options[1..], o); }
  }

  /** What comes behind the CR of a line: the options, the end of the head, and the payload. */
  function Behind(options: seq<Item>, payload: Option<Text>): Text {
    [LF] + OptionsText(options) + CRLF + PayloadText(payload) + [NUL]
  }

  lemma BehindEmpty(payload: Option<Text>)
    requires PayloadOk(payload)
    ensures EndingOf(Behind([], payload)) == Ends(payload)
  {
    var s := Behind([], payload);
    assert s == [LF, CR, LF] + PayloadText(payload) + [NUL];
    assert s[..2] == [LF, CR] && s[..3] == [LF, CR, LF];
    if payload.Some? {
      assert s[3] == payload.value[0] && s[3..|s| - 1] == payload.value;
    } else {
      assert s == [LF, CR, LF, NUL];
    }
  }

  /** The next option as it stands there. */
  lemma BehindNext(o: Item, options: seq<Item>, payload: Option<Text>)
    ensures Behind([o] + options, payload)
         == [LF] + (o.name + [COLON] + ([SPACE] + o.content + [CR] + Behind(options, payload)))
  {
    var all := [o] + options;
    assert all[1..] == options;
    assert OptionsText(all) == OptionText(o) + OptionsText(options);
  }

  lemma BehindGoesOn(o: Item, options: seq<Item>, payload: Option<Text>)
    requires OptionOk(o)
    ensures EndingOf(Behind([o] + options, payload)) == GoesOn
  {
    BehindNext(o, options, payload);
    var s := Behind([o] + options, payload);
    assert s[1] == o.name[0];
    assert s[..2][1] == s[1] && s[..3][1] == s[1];
  }

  /** Reading one option. */
  lemma OptionReads(o: Item, options: seq<Item>, payload: Option<Text>)
    requires OptionOk(o)
    ensures ReadItem(Behind([o] + options, payload))
         == Some((o, Token([SPACE] + o.content, false, Behind(options, payload))))
  {
    BehindNext(o, options, payload);
    var tail := [SPACE] + o.content + [CR] + Behind(options, payload);
    SkipOne(LF, o.name + [COLON] + tail, OPTION_DELIM);
    TokenThere(o.name, COLON, tail, OPTION_DELIM);
    TokenThere([SPACE] + o.content, CR, Behind(options, payload), END);
    assert ([SPACE] + o.content)[1..] == o.content;
  }

  lemma NewName(done: seq<Item>, o: Item, rest: seq<Item>)
    requires DistinctNames(done + ([o] + rest))
    ensures Insert(done, o) == done + [o] && done + [o] + rest == done + ([o] + rest)
  {
    var all := done + ([o] + rest);
    forall i | 0 <= i < |done|
      ensures done[i].name != o.name
    {
      assert all[i] == done[i] && all[|done|] == o;
    }
    InsertNew(done, o);
  }

  /** One more option, and whatever ReadOptions makes of the rest. */
  lemma OneOptionReads(done: seq<Item>, o: Item, rest: seq<Item>, payload: Option<Text>)
    requires OptionOk(o) && DistinctNames(done + ([o] + rest))
    ensures ReadOptions(Behind([o] + rest, payload), done) ==
      match EndingOf(Behind(rest, payload))
      case Ends(p) => Some((done + [o], p))
      case GoesOn => ReadOptions(Behind(rest, payload), done + [o])
  {
    OptionReads(o, rest, payload);
    NewName(done, o, rest);
  }

  predicate PayloadOk(payload: Option<Text>) {
    payload.Some? ==> payload.value != [] && payload.value[0] != NUL
  }

  lemma FirstAndRest(options: seq<Item>) returns (o: Item, rest: seq<Item>)
    requires options != [] && OptionsOk(options)
    ensures options == [o] + rest && OptionOk(o) && OptionsOk(rest)
  {
    o, rest := options[0], options[1..];
  }

  lemma {:induction false} OptionsRead(done: seq<Item>, o: Item, rest: seq<Item>, payload: Option<Text>)
    requires OptionOk(o) && OptionsOk(rest) && DistinctNames(done + ([o] + rest)) && PayloadOk(payload)
    ensures ReadOptions(Behind([o] + rest, payload), done) == Some((done + ([o] + rest), payload))
    decreases |rest|
  {
    OneOptionReads(done, o, rest, payload);
    NewName(done, o, rest);
    if rest == [] {
      LastOptionReads(done, o, payload);
    } else {
      var next, more := FirstAndRest(rest);
      BehindGoesOn(next, more, payload);
      OptionsRead(done + [o], next, more, payload);
    }
  }

  lemma LastOptionReads(done: seq<Item>, o: Item, payload: Option<Text>)
    requires OptionOk(o) && DistinctNames(done + ([o] + [])) && PayloadOk(payload)
    ensures ReadOptions(Behind([o] + [], payload), done) == Some((done + ([o] + []), payload))
  {
    OneOptionReads(done, o, [], payload);
    BehindEmpty(payload);
    assert done + [o] == done + ([o] + []);
  }

  // ----- the start line

  lemma {:induction false} DecimalFree(n: nat)
    ensures FreeOf(Decimal(n), DELIM)
  {
    if n >= 10 { DecimalFree(n / 10); }
  }

  lemma WrittenFree(n: int)
    ensures FreeOf(Written(n), DELIM) && Written(n) != []
  {
    if n < 0 { DecimalFree(-n); } else { DecimalFree(n); }
  }

  lemma ProtocolFree()
    ensures FreeOf(PROTOCOL, DELIM) && StartsWith(PROTOCOL, RTSP)
  {
    assert PROTOCOL[..4] == RTSP;
  }

  lemma RequestReads(command: Text, target: Text, s: Text)
    requires command != [] && FreeOf(command, DELIM) && !StartsWith(command, RTSP) && target != []
    requires FreeOf(target, DELIM)
    ensures ReadStart(command + [SPACE] + (target + [SPACE] + (PROTOCOL + [CR] + s)))
         == Some((Request(command, target), PROTOCOL, s))
  {
    ProtocolFree();
    TokenThere(command, SPACE, target + [SPACE] + (PROTOCOL + [CR] + s), DELIM);
    TokenThere(target, SPACE, PROTOCOL + [CR] + s, DELIM);
    TokenThere(PROTOCOL, CR, s, DELIM);
  }

  lemma ResponseReads(code: int, status: Text, s: Text)
    requires status != [] && FreeOf(status, END)
    ensures ReadStart(PROTOCOL + [SPACE] + (Written(code) + [SPACE] + (status + [CR] + s)))
         == Some((Response(code, status), PROTOCOL, s))
  {
    ProtocolFree(); WrittenFree(code); WrittenReads(code);
    TokenThere(PROTOCOL, SPACE, Written(code) + [SPACE] + (status + [CR] + s), DELIM);
    TokenThere(Written(code), SPACE, status + [CR] + s, DELIM);
    TokenThere(status, CR, s, END);
  }

  lemma RequestText(command: Text, target: Text, s: Text)
    ensures command + [SPACE] + target + [SPACE] + PROTOCOL + CRLF + s
         == command + [SPACE] + (target + [SPACE] + (PROTOCOL + [CR] + ([LF] + s)))
  {
    assert CRLF + s == [CR] + ([LF] + s);
  }

  lemma ResponseText(code: Text, status: Text, s: Text)
    ensures PROTOCOL + [SPACE] + code + [SPACE] + status + CRLF + s
         == PROTOCOL + [SPACE] + (code + [SPACE] + (status + [CR] + ([LF] + s)))
  {
    assert CRLF + s == [CR] + ([LF] + s);
  }

  lemma MessageText(start: Text, options: Text, payload: Text)
    ensures start + options + CRLF + payload + [NUL] == start + (options + CRLF + payload + [NUL])
    ensures [LF] + (options + CRLF + payload + [NUL]) == [LF] + options + CRLF + payload + [NUL]
  {}

  lemma StartReads(m: Message)
    requires StartOk(m)
    ensures ReadStart(Serialize(m) + [NUL]) == Some((m.start, PROTOCOL, Behind(m.options, m.payload)))
  {
    var s := OptionsText(m.options) + CRLF + PayloadText(m.payload) + [NUL];
    MessageText(StartText(m), OptionsText(m.options), PayloadText(m.payload));
    match m.start
    case Request(command, target) =>
      RequestText(command, target, s);
      RequestReads(command, target, [LF] + s);
    case Response(code, status) =>
      ResponseText(Written(code), status, s);
      ResponseReads(code, status, [LF] + s);
  }

  /** Reading a written message gives back its start line, its options in order, and its payload. */
  lemma RoundTrip(m: Message)
    requires Serializable(m)
    ensures Parse(Serialize(m)) == Parsed(m, SequenceNumber(m.options))
  {
    StartReads(m);
    var o, rest := FirstAndRest(m.options);
    assert [] + ([o] + rest) == m.options;
    OptionsRead([], o, rest, m.payload);
  }
}
