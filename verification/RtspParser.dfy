/** RtspParser.c on its buffers: messages are written into a buffer of the exact size, and read by cutting the
    buffer into strings in place. */
module RtspParser {
  import opened Wrappers
  import opened Gf256
  import opened RtspMessage

  // ----- writing

  lemma {:induction false} OptionsTextSnoc(options: seq<Item>, o: Item)
    ensures OptionsText(options + [o]) == OptionsText(options) + OptionText(o)
    decreases |options|
  {
    if options == [] {
      assert [o][1..] == [];
    } else {
      assert (options + [o])[1..] == options[1..] + [o];
      OptionsTextSnoc(options[1..], o);
    }
  }

  /** getMessageLength: one byte more than the message takes. */
  method GetMessageLength(m: Message) returns (count: nat)
    ensures count == |Serialize(m)| + 1
  {
    count := 1 + |m.protocol|;
    match m.start {
      case Request(command, target) => count := count + |command| + |target| + 4;
      case Response(code, status) => count := count + |Written(code)| + |status| + 4;
    }
    assert count == 1 + |StartText(m)|;
    for i := 0 to |m.options|
      invariant count == 1 + |StartText(m)| + |OptionsText(m.options[..i])|
    {
      OptionsTextSnoc(m.options[..i], m.options[i]);
      assert m.options[..i + 1] == m.options[..i] + [m.options[i]];
      count := count + |m.options[i].name| + |m.options[i].content| + 4;
    }
    assert m.options[..|m.options|] == m.options;
    count := count + 2 + |PayloadText(m.payload)|;
  }

  /** appendString: the string and its closing NUL, if they fit. */
  method AppendString(dest: array<Byte>, offset: nat, size: nat, source: Text)
    returns (ok: bool, offset': nat, size': nat)
    requires offset + size == dest.Length
    modifies dest
    ensures ok <==> |source| < size
    ensures offset' + size' == dest.Length && offset' == if ok then offset + |source| else offset
    ensures ok ==> dest[..offset'] == old(dest[..offset]) + source
  {
    ok := |source| < size;
    if !ok {
      return false, offset, size;
    }
    forall i | 0 <= i < |source| {
      dest[offset + i] := source[i];
    }
    dest[offset + |source|] := NUL;
    offset', size' := offset + |source|, size - |source|;
    assert dest[offset..offset'] == source && dest[..offset] == old(dest[..offset]);
    assert dest[..offset'] == dest[..offset] + dest[offset..offset'];
  }

  /** Two strings, as the source appends them, one only after the other. */
  method AppendPair(dest: array<Byte>, offset: nat, size: nat, a: Text, b: Text)
    returns (ok: bool, offset': nat, size': nat)
    requires offset + size == dest.Length
    modifies dest
    ensures offset' + size' == dest.Length && (|a| + |b| < size ==> ok)
    ensures ok ==> offset' == offset + |a| + |b| && dest[..offset'] == old(dest[..offset]) + (a + b)
  {
    ok, offset', size' := AppendString(dest, offset, size, a);
    if ok {
      ok, offset', size' := AppendString(dest, offset', size', b);
    }
  }

  method AppendThree(dest: array<Byte>, a: Text, b: Text, c: Text) returns (ok: bool, offset: nat, size: nat)
    modifies dest
    ensures offset + size == dest.Length && (|a| + |b| + |c| + 4 < dest.Length ==> ok)
    ensures ok ==> offset == |a| + |b| + |c| + 4 && dest[..offset] == a + [SPACE] + b + [SPACE] + c + CRLF
  {
    assert dest[..0] == [];
    ok, offset, size := AppendPair(dest, 0, dest.Length, a, [SPACE]);
    if ok { ok, offset, size := AppendPair(dest, offset, size, b, [SPACE]); }
    if ok { ok, offset, size := AppendPair(dest, offset, size, c, CRLF); }
    ThreeParts(a, b, c);
  }

  lemma ThreeParts(a: Text, b: Text, c: Text)
    ensures [] + (a + [SPACE]) + (b + [SPACE]) + (c + CRLF) == a + [SPACE] + b + [SPACE] + c + CRLF
  {}

  method AppendStart(dest: array<Byte>, m: Message) returns (ok: bool, offset: nat, size: nat)
    modifies dest
    ensures offset + size == dest.Length && (|StartText(m)| < dest.Length ==> ok)
    ensures ok ==> offset == |StartText(m)| && dest[..offset] == StartText(m)
  {
    match m.start
    case Request(command, target) => ok, offset, size := AppendThree(dest, command, target, m.protocol);
    case Response(code, status) => ok, offset, size := AppendThree(dest, m.protocol, Written(code), status);
  }

  method AppendOption(dest: array<Byte>, offset: nat, size: nat, o: Item) returns (ok: bool, offset': nat, size': nat)
    requires offset + size == dest.Length
    modifies dest
    ensures offset' + size' == dest.Length && (|OptionText(o)| < size ==> ok)
    ensures ok ==> offset' == offset + |OptionText(o)| && dest[..offset'] == old(dest[..offset]) + OptionText(o)
  {
    ok, offset', size' := AppendPair(dest, offset, size, o.name, [COLON, SPACE]);
    if ok { ok, offset', size' := AppendPair(dest, offset', size', o.content, CRLF); }
    assert old(dest[..offset]) + (o.name + [COLON, SPACE]) + (o.content + CRLF) == old(dest[..offset]) + OptionText(o);
  }

  method AppendOptions(dest: array<Byte>, offset0: nat, size0: nat, options: seq<Item>)
    returns (ok: bool, offset: nat, size: nat)
    requires offset0 + size0 == dest.Length
    modifies dest
    ensures offset + size == dest.Length && (|OptionsText(options)| < size0 ==> ok)
    ensures ok ==>
      offset == offset0 + |OptionsText(options)| && dest[..offset] == old(dest[..offset0]) + OptionsText(options)
  {
    ok, offset, size := true, offset0, size0;
    assert dest[..offset0] + [] == dest[..offset0];
    var i := 0;
    while i < |options| && ok
      invariant i <= |options| && offset + size == dest.Length
      invariant |OptionsText(options)| < size0 ==> ok
      invariant ok ==>
        offset == offset0 + |OptionsText(options[..i])| &&
          dest[..offset] == old(dest[..offset0]) + OptionsText(options[..i])
      decreases |options| - i
    {
      TextUpTo(options, i);
      ok, offset, size := AppendOption(dest, offset, size, options[i]);
      i := i + 1;
    }
    if ok { assert options[..i] == options; }
  }

  lemma TextUpTo(options: seq<Item>, i: nat)
    requires i < |options|
    ensures OptionsText(options[..i + 1]) == OptionsText(options[..i]) + OptionText(options[i])
    ensures |OptionsText(options[..i + 1])| <= |OptionsText(options)|
  {
    OptionsTextSnoc(options[..i], options[i]);
    assert options[..i + 1] == options[..i] + [options[i]];
    OptionsTextJoin(options[..i + 1], options[i + 1..]);
    assert options[..i + 1] + options[i + 1..] == options;
  }

  lemma {:induction false} OptionsTextJoin(a: seq<Item>, b: seq<Item>)
    ensures OptionsText(a + b) == OptionsText(a) + OptionsText(b)
    decreases |a|
  {
    if a == [] {
      assert a + b == b;
    } else {
      assert (a + b)[1..] == a[1..] + b;
      OptionsTextJoin(a[1..], b);
    }
  }

  /** serializeRtspMessage: no append ever fails, and the buffer is full but for the last byte. The texts stand
      for C strings and so hold no NUL. */
  method SerializeRtspMessage(m: Message) returns (buf: array<Byte>, length: nat)
    ensures fresh(buf) && length == |Serialize(m)| && buf.Length == length + 1
    ensures buf[..length] == Serialize(m)
  {
    var size := GetMessageLength(m);
    var dest := new Byte[size];
    var ok, offset;
    ok, offset, size := AppendStart(dest, m);
    if ok { ok, offset, size := AppendOptions(dest, offset, size, m.options); }
    if ok { ok, offset, size := AppendString(dest, offset, size, CRLF); }
    assert ok;
    length := CopyPayload(dest, offset, PayloadText(m.payload));
    buf := dest;
  }

  method CopyPayload(dest: array<Byte>, offset: nat, payload: Text) returns (length: nat)
    requires offset + |payload| <= dest.Length
    modifies dest
    ensures length == offset + |payload| && dest[..length] == old(dest[..offset]) + payload
  {
    forall i | 0 <= i < |payload| {
      dest[offset + i] := payload[i];
    }
    length := offset + |payload|;
    assert dest[offset..length] == payload && dest[..offset] == old(dest[..offset]);
    assert dest[..length] == dest[..offset] + dest[offset..length];
  }

  // ----- reading

  /** The buffer ends with a NUL. */
  predicate Terminated(buf: array<Byte>)
    reads buf
  {
    buf.Length > 0 && buf[buf.Length - 1] == NUL
  }

  lemma {:induction false} TokenLengthStops(s: Text, delims: Text, n: nat)
    requires n < |s| && (s[n] == NUL || s[n] in delims) && forall i :: 0 <= i < n ==> s[i] != NUL && s[i] !in delims
    ensures TokenLength(s, delims) == n
    decreases n
  {
    if n > 0 {
      assert s[1..][n - 1] == s[n];
      assert forall i :: 0 <= i < n - 1 ==> s[1..][i] == s[i + 1];
      TokenLengthStops(s[1..], delims, n - 1);
    }
  }

  /** What strtok has found, between start and end. */
  lemma TokenBetween(all: Text, at: nat, start: nat, end: nat, delims: Text)
    requires at <= start < end < |all| && SkipDelims(all[at..], delims) == all[start..] && NUL !in delims
    requires (all[end] == NUL || all[end] in delims)
    requires forall i :: start <= i < end ==> all[i] != NUL && all[i] !in delims
    ensures NextToken(all[at..], delims) == Some(Token(all[start..end], all[end] == NUL, all[end + 1..]))
  {
    var u, n := all[start..], end - start;
    SlicesAgree(all, start, end);
    TokenLengthStops(u, delims, n);
    TokenAtFront(all[at..], u, delims, n);
  }

  lemma SlicesAgree(all: Text, start: nat, end: nat)
    requires start <= end < |all|
    ensures all[start..][..end - start] == all[start..end] && all[start..][end - start..][1..] == all[end + 1..]
    ensures all[start..][end - start + 1..] == all[end + 1..] && all[start..][end - start] == all[end]
    ensures forall i :: 0 <= i < end - start ==> all[start..][i] == all[start + i]
  {}

  lemma TokenAtFront(s: Text, u: Text, delims: Text, n: nat)
    requires SkipDelims(s, delims) == u && 0 < n < |u| && TokenLength(u, delims) == n
    ensures NextToken(s, delims) == Some(Token(u[..n], u[n] == NUL, u[n + 1..]))
  {}

  /** The position of the first byte from at on that is no delimiter. */
  method SkipDelimiters(buf: array<Byte>, at: nat, delims: Text) returns (start: nat)
    requires Terminated(buf) && at < buf.Length && NUL !in delims
    ensures at <= start < buf.Length && buf[start] !in delims && SkipDelims(buf[at..], delims) == buf[start..]
  {
    start := at;
    while buf[start] in delims
      invariant at <= start < buf.Length && SkipDelims(buf[at..], delims) == SkipDelims(buf[start..], delims)
      decreases buf.Length - start
    {
      assert buf[start..][1..] == buf[start + 1..];
      start := start + 1;
    }
  }

  method FindEnd(buf: array<Byte>, start: nat, delims: Text) returns (end: nat)
    requires Terminated(buf) && start < buf.Length
    ensures start <= end < buf.Length && (buf[end] == NUL || buf[end] in delims)
    ensures forall i :: start <= i < end ==> buf[i] != NUL && buf[i] !in delims
  {
    end := start;
    while buf[end] != NUL && buf[end] !in delims
      invariant start <= end < buf.Length
      invariant forall i :: start <= i < end ==> buf[i] != NUL && buf[i] !in delims
      decreases buf.Length - end
    {
      end := end + 1;
    }
  }

  method FindToken(buf: array<Byte>, at: nat, delims: Text) returns (found: bool, start: nat, end: nat)
    requires Terminated(buf) && at < buf.Length && NUL !in delims
    ensures at <= start <= end < buf.Length && (!found ==> buf[end] == NUL)
    ensures found == NextToken(buf[at..], delims).Some?
    ensures found ==>
      start < end && NextToken(buf[at..], delims).value == Token(buf[start..end], buf[end] == NUL, buf[end + 1..])
  {
    start := SkipDelimiters(buf, at, delims);
    if buf[start] == NUL {
      return false, start, start;
    }
    end := FindEnd(buf, start, delims);
    ghost var all := buf[..];
    assert all[at..] == buf[at..] && all[start..] == buf[start..];
    TokenBetween(all, at, start, end, delims);
    assert all[start..end] == buf[start..end] && all[end + 1..] == buf[end + 1..];
    found := true;
  }

  /** strtok_r: cuts the next token out of the string at the position, by writing a NUL behind it. */
  method Strtok(buf: array<Byte>, at: nat, delims: Text) returns (found: bool, start: nat, end: nat, next: nat)
    requires Terminated(buf) && at < buf.Length && NUL !in delims
    modifies buf
    ensures Terminated(buf) && at <= start <= end <= next < buf.Length && buf[end] == NUL
    ensures forall i :: 0 <= i < buf.Length && i != end ==> buf[i] == old(buf[i])
    ensures found == NextToken(old(buf[at..]), delims).Some?
    ensures found ==> start < end
    ensures found ==> NextToken(old(buf[at..]), delims).value == Token(buf[start..end], next == end, buf[end + 1..])
    ensures found ==> next == end || next == end + 1
  {
    found, start, end := FindToken(buf, at, delims);
    next := if buf[end] == NUL then end else end + 1;
    ghost var text, after := buf[start..end], buf[end + 1..];
    if found {
      buf[end] := NUL;
      assert buf[start..end] == text && buf[end + 1..] == after;
    }
  }

  /** What is left of the string at the position: s, or nothing once the string has ended. */
  predicate Cursor(buf: array<Byte>, at: nat, s: Text)
    reads buf
  {
    Terminated(buf) && at < buf.Length && (buf[at..] == s || (buf[at] == NUL && s == []))
  }

  lemma NoToken(s: Text, delims: Text)
    requires NUL !in delims && (s != [] ==> s[0] == NUL)
    ensures NextToken(s, delims) == None
  {}

  lemma CursorTokens(buf: array<Byte>, at: nat, s: Text, delims: Text)
    requires Cursor(buf, at, s) && NUL !in delims
    ensures NextToken(buf[at..], delims) == NextToken(s, delims)
  {
    if buf[at..] != s { NoToken(buf[at..], delims); NoToken(s, delims); }
  }

  /** The next token of what is left, t in the specification's terms; behind is the position after it. */
  method TakeToken(buf: array<Byte>, at: nat, delims: Text, ghost s: Text)
    returns (found: bool, text: Text, behind: nat, next: nat, ghost t: Token)
    requires Cursor(buf, at, s) && NUL !in delims
    modifies buf
    ensures Terminated(buf) && found == NextToken(s, delims).Some?
    ensures found ==>
      t == NextToken(s, delims).value && text == t.text && behind <= buf.Length && buf[behind..] == t.after
    ensures found ==> at < next && Cursor(buf, next, RestOf(t))
  {
    CursorTokens(buf, at, s, delims);
    ghost var here := buf[at..];
    var start, end;
    found, start, end, next := Strtok(buf, at, delims);
    text, behind, t := buf[start..end], end + 1, Token([], true, []);
    if found { t := NextToken(here, delims).value; }
  }

  /** The next option; behind is the position after its content, and t the content's token. */
  method ReadItemAt(buf: array<Byte>, at: nat, ghost s: Text)
    returns (ok: bool, item: Item, behind: nat, next: nat, ghost t: Token)
    requires Cursor(buf, at, s)
    modifies buf
    ensures Terminated(buf) && ok == ReadItem(s).Some?
    ensures ok ==> ReadItem(s).value == (item, t) && behind <= buf.Length && buf[behind..] == t.after
    ensures ok ==> at < next && Cursor(buf, next, RestOf(t))
  {
    item, behind := Item([], []), 0;
    var name;
    ok, name, behind, next, t := TakeToken(buf, at, OPTION_DELIM, s);
    if ok {
      ok, item, behind, next, t := ReadContentAt(buf, next, name, RestOf(t));
    }
  }

  method ReadContentAt(buf: array<Byte>, at: nat, name: Text, ghost s: Text)
    returns (ok: bool, item: Item, behind: nat, next: nat, ghost t: Token)
    requires Cursor(buf, at, s)
    modifies buf
    ensures Terminated(buf) && ok == NextToken(s, END).Some?
    ensures ok ==> t == NextToken(s, END).value && item == Item(name, t.text[1..])
    ensures ok ==> behind <= buf.Length && buf[behind..] == t.after && at < next && Cursor(buf, next, RestOf(t))
  {
    var content;
    ok, content, behind, next, t := TakeToken(buf, at, END, s);
    item := Item(name, if ok then content[1..] else []);
  }

  /** What the bytes behind a content say. */
  method ReadEnding(buf: array<Byte>, at: nat) returns (e: Ending)
    requires Terminated(buf) && at <= buf.Length
    ensures e == EndingOf(buf[at..])
  {
    ghost var s := buf[at..];
    if at + 1 < buf.Length && buf[at] == LF {
      if buf[at + 1] == NUL {
        assert s[..2] == [LF, NUL];
        return Ends(None);
      }
      if buf[at + 1] == CR {
        if buf[at + 2] == NUL {
          assert s[..3] == [LF, CR, NUL];
          return Ends(None);
        }
        if buf[at + 2] == LF {
          assert s[..3] == [LF, CR, LF];
          if buf[at + 3] != NUL {
            assert s[3..|s| - 1] == buf[at + 3..buf.Length - 1];
            return Ends(Some(buf[at + 3..buf.Length - 1]));
          }
          return Ends(None);
        }
      }
    }
    e := GoesOn;
  }

  /** The loop over the options. */
  method ReadOptionsAt(buf: array<Byte>, from: nat, ghost rest: Text)
    returns (ok: bool, options: seq<Item>, payload: Option<Text>)
    requires Cursor(buf, from, rest)
    modifies buf
    ensures ReadOptions(rest, []) == if ok then Some((options, payload)) else None
  {
    var at := from;
    ghost var s := rest;
    options, payload := [], None;
    while true
      invariant Cursor(buf, at, s) && ReadOptions(s, options) == ReadOptions(rest, [])
      decreases buf.Length - at
    {
      var found, item, behind, next, t := ReadItemAt(buf, at, s);
      if !found {
        return false, [], None;
      }
      options := InsertOption(options, item);
      var e := ReadEnding(buf, behind);
      if e.Ends? {
        return true, options, e.payload;
      }
      at, s := next, RestOf(t);
    }
  }

  /** insertOption. */
  method InsertOption(options: seq<Item>, o: Item) returns (r: seq<Item>)
    ensures r == Insert(options, o)
  {
    var i := 0;
    while i < |options| && options[i].name != o.name
      invariant i <= |options| && forall k :: 0 <= k < i ==> options[k].name != o.name
    {
      i := i + 1;
    }
    InsertAt(options, o, i);
    r := if i < |options| then options[i := options[i].(content := o.content)] else options + [o];
  }

  lemma {:induction false} InsertAt(options: seq<Item>, o: Item, i: nat)
    requires i <= |options| && (i < |options| ==> options[i].name == o.name)
    requires forall k :: 0 <= k < i ==> options[k].name != o.name
    ensures Insert(options, o) == if i < |options| then options[i := options[i].(content := o.content)]
      else options + [o]
    decreases i
  {
    if i > 0 {
      InsertAt(options[1..], o, i - 1);
      assert options == [options[0]] + options[1..];
    }
  }

  /** parseRtspMessage. A message that ends with a content makes the source look one byte past the buffer; the
      byte is taken to be no LF. */
  method ParseRtspMessage(bytes: Text) returns (r: Parsed)
    ensures r == Parse(bytes)
  {
    var buf := new Byte[|bytes| + 1];
    forall i | 0 <= i < |bytes| {
      buf[i] := bytes[i];
    }
    buf[|bytes|] := NUL;
    assert buf[0..] == bytes + [NUL];
    var ok, start, protocol, next, rest := ReadStartAt(buf, bytes + [NUL]);
    if !ok || protocol != PROTOCOL {
      return Malformed;
    }
    var options, payload;
    ok, options, payload := ReadOptionsAt(buf, next, rest);
    if !ok {
      return Malformed;
    }
    r := Parsed(Message(start, PROTOCOL, options, payload), SequenceNumber(options));
  }

  method ReadThirdAt(buf: array<Byte>, at: nat, first: Text, second: Text, ghost s: Text)
    returns (ok: bool, start: Start, protocol: Text, next: nat, ghost rest: Text)
    requires Cursor(buf, at, s)
    modifies buf
    ensures ok == ReadThird(first, second, s).Some?
    ensures ok ==> ReadThird(first, second, s).value == (start, protocol, rest) && Cursor(buf, next, rest)
  {
    var third, behind;
    ghost var t;
    if StartsWith(first, RTSP) {
      ok, third, behind, next, t := TakeToken(buf, at, END, s);
      start, protocol := Response(Read(second), third), first;
    } else {
      ok, third, behind, next, t := TakeToken(buf, at, DELIM, s);
      start, protocol := Request(first, second), third;
    }
    rest := RestOf(t);
  }

  method ReadSecondAt(buf: array<Byte>, at: nat, first: Text, ghost s: Text)
    returns (ok: bool, start: Start, protocol: Text, next: nat, ghost rest: Text)
    requires Cursor(buf, at, s)
    modifies buf
    ensures ok == ReadSecond(first, s).Some?
    ensures ok ==> ReadSecond(first, s).value == (start, protocol, rest) && Cursor(buf, next, rest)
  {
    start, protocol, rest := Request([], []), [], [];
    var second, behind;
    ghost var t;
    ok, second, behind, next, t := TakeToken(buf, at, DELIM, s);
    if ok {
      ok, start, protocol, next, rest := ReadThirdAt(buf, next, first, second, RestOf(t));
    }
  }

  /** The start line; rest is what is left after it. */
  method ReadStartAt(buf: array<Byte>, ghost s: Text)
    returns (ok: bool, start: Start, protocol: Text, next: nat, ghost rest: Text)
    requires Cursor(buf, 0, s)
    modifies buf
    ensures ok == ReadStart(s).Some?
    ensures ok ==> ReadStart(s).value == (start, protocol, rest) && Cursor(buf, next, rest)
  {
    start, protocol, rest := Request([], []), [], [];
    var first, behind;
    ghost var t;
    ok, first, behind, next, t := TakeToken(buf, 0, DELIM, s);
    if ok {
      ok, start, protocol, next, rest := ReadSecondAt(buf, next, first, RestOf(t));
    }
  }
}
