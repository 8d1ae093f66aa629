/** The WeChat channel's XML: a printer for text replies, a parser by substring search, and the reply handler. */
module WeChat {
  import opened Options
  import opened Text

  const CDATA_OPEN := "<![CDATA["
  const CDATA_CLOSE := "]]>"

  function Open(name: string): string { "<" + name + ">" }

  function Close(name: string): string { "</" + name + ">" }

  function CData(body: string): string { CDATA_OPEN + body + CDATA_CLOSE }

  function Element(name: string, body: string): string { Open(name) + body + Close(name) }

  // ----- the parser -----

  /** The two CDATA marks cannot overlap, so the slice between them is in bounds. */
  lemma CDataSliceInBounds(raw: string)
    requires CDATA_OPEN <= raw && EndsWith(raw, CDATA_CLOSE)
    ensures |raw| >= |CDATA_OPEN| + |CDATA_CLOSE|
  {
    var k := |raw| - 3;
    assert raw[k] == raw[k..][0] == ']';
    assert forall i :: 0 <= i < 9 ==> raw[i] == CDATA_OPEN[i] != ']';
  }

  function StripCData(raw: string): string {
    if CDATA_OPEN <= raw && EndsWith(raw, CDATA_CLOSE) then
      CDataSliceInBounds(raw);
      raw[9..|raw| - 3]
    else raw
  }

  function Extract(xml: string, name: string): Option<string> {
    match Find(xml, Open(name))
    case None => None
    case Some(start) =>
      var rest := xml[start + |Open(name)|..];
      match Find(rest, Close(name))
      case None => None
      case Some(end) => Some(StripCData(rest[..end]))
  }

  datatype InboundEvent = InboundEvent(
    messageId: Option<string>,
    senderId: Option<string>,
    senderName: Option<string>,
    chatId: Option<string>,
    text: Option<string>,
    timestamp: int,
    msgType: string,
    rawXml: string)

  function Parse(xml: string, now: int): InboundEvent {
    InboundEvent(
      Extract(xml, "MsgId"),
      Extract(xml, "FromUserName"),
      Extract(xml, "FromUserName"),
      Extract(xml, "ToUserName"),
      Extract(xml, "Content"),
      ParseI64(Extract(xml, "CreateTime").GetOr("")).GetOr(now),
      Extract(xml, "MsgType").GetOr(""),
      xml)
  }

  // ----- the printer -----

  function Line(name: string, body: string): string { Element(name, body) + "\n" }

  /** The document up to the line of each element. */
  function BeforeFrom(to: string): string { "<xml>\n" + Line("ToUserName", CData(to)) }

  function BeforeTime(to: string, from: string): string { BeforeFrom(to) + Line("FromUserName", CData(from)) }

  function BeforeType(to: string, from: string, timestamp: int): string {
    BeforeTime(to, from) + Line("CreateTime", ShowInt(timestamp))
  }

  function BeforeContent(to: string, from: string, timestamp: int): string {
    BeforeType(to, from, timestamp) + Line("MsgType", CData("text"))
  }

  function TextReply(to: string, from: string, content: string, timestamp: int): string {
    BeforeContent(to, from, timestamp) + (Line("Content", CData(content)) + "</xml>")
  }

  function Acknowledgement(text: string): string {
    if text == "" then "收到消息！" else "已收到：" + text
  }

  function HandleMessage(xml: string, now: int): string {
    var event := Parse(xml, now);
    TextReply(event.senderId.GetOr(""), event.chatId.GetOr(""), Acknowledgement(event.text.GetOr("")), now)
  }

  // ----- where a tag can occur in a concatenation -----

  /** Starts with '<', and has neither another '<' nor a ']'. */
  predicate IsTag(tag: string) {
    && |tag| >= 2 && tag[0] == '<'
    && forall j :: 1 <= j < |tag| ==> tag[j] != '<' && tag[j] != ']'
  }

  predicate IsName(name: string) {
    name != "" && forall j :: 0 <= j < |name| ==> name[j] !in "<>]/!"
  }

  lemma NamesMakeTags(name: string)
    requires IsName(name)
    ensures IsTag(Open(name)) && IsTag(Close(name))
    ensures Open(name)[1] != '!' && Open(name)[1] != '/' && Close(name)[1] == '/'
  {}

  /** No tag straddles the boundary in front of a '<' or a ']'. */
  lemma OccursInOnePart(a: string, b: string, tag: string, i: int)
    requires IsTag(tag) && OccursAt(a + b, tag, i)
    requires b != "" ==> b[0] == '<' || b[0] == ']'
    ensures OccursAt(a, tag, i) || OccursAt(b, tag, i - |a|)
  {
    var s, k := a + b, |a| - i;
    assert 0 <= k < |tag| ==> s[i..i + |tag|][k] == s[|a|];
    if i + |tag| <= |a| {
      assert a[i..i + |tag|] == s[i..i + |tag|];
    } else {
      assert |a| <= i;
      assert b[i - |a|..i - |a| + |tag|] == s[i..i + |tag|];
    }
  }

  lemma ContainsJoin(a: string, b: string, tag: string)
    requires IsTag(tag)
    requires b != "" ==> b[0] == '<' || b[0] == ']'
    ensures Contains(a + b, tag) <==> Contains(a, tag) || Contains(b, tag)
  {
    if i :| OccursAt(a, tag, i) {
      OccursInFront(a, b, tag, i);
    }
    if i :| OccursAt(b, tag, i) {
      OccursBehind(a, b, tag, i);
    }
    if i :| OccursAt(a + b, tag, i) {
      OccursInOnePart(a, b, tag, i);
    }
  }

  /** No tag starts inside a, so a can be dropped. */
  lemma ContainsDropFront(a: string, b: string, tag: string)
    requires IsTag(tag)
    requires forall i :: 0 <= i < |a| && a[i] == '<' ==> i + 1 < |a| && a[i + 1] != tag[1]
    ensures Contains(a + b, tag) <==> Contains(b, tag)
  {
    var s := a + b;
    if Contains(b, tag) {
      var i :| OccursAt(b, tag, i);
      assert s[|a| + i..|a| + i + |tag|] == b[i..i + |tag|];
      assert OccursAt(s, tag, |a| + i);
    }
    if Contains(s, tag) {
      var i :| OccursAt(s, tag, i);
      assert s[i..i + |tag|][0] == s[i] && s[i..i + |tag|][1] == s[i + 1];
      assert |a| <= i;
      assert b[i - |a|..i - |a| + |tag|] == s[i..i + |tag|];
      assert OccursAt(b, tag, i - |a|);
    }
  }

  /** A text whose only '<' is its first character contains a tag only at the front. */
  lemma ContainsLiteral(s: string, tag: string)
    requires IsTag(tag)
    requires forall i :: 1 <= i < |s| ==> s[i] != '<'
    ensures Contains(s, tag) <==> tag <= s
  {
    if tag <= s {
      assert OccursAt(s, tag, 0);
    }
    if Contains(s, tag) {
      var i :| OccursAt(s, tag, i);
      assert s[i..i + |tag|][0] == s[i];
      assert i == 0;
    }
  }

  lemma ContainsCData(body: string, tag: string)
    requires IsTag(tag) && tag[1] != '!'
    ensures Contains(CData(body), tag) <==> Contains(body, tag)
  {
    ContainsDropFront(CDATA_OPEN, body, tag);
    ContainsJoin(CDATA_OPEN + body, CDATA_CLOSE, tag);
    ContainsLiteral(CDATA_CLOSE, tag);
  }

  lemma OpenIsNotPrefixOfOther(name: string, other: string, rest: string)
    requires IsName(name) && IsName(other)
    ensures Open(other) <= Open(name) + rest ==> name == other
  {
    var s, t := Open(name) + rest, Open(other);
    assert forall i :: 0 <= i < |name| ==> s[i + 1] == name[i] != '>';
    assert forall i :: 0 <= i < |other| ==> t[i + 1] == other[i] != '>';
    assert s[|name| + 1] == '>' && t[|other| + 1] == '>';
    if t <= s {
      assert forall i :: 0 <= i < |t| ==> s[i] == t[i];
      assert |name| == |other|;
      assert forall i :: 0 <= i < |name| ==> name[i] == s[i + 1] == t[i + 1] == other[i];
    }
  }

  /** A finished element on its own line contains another opening tag only in its body. */
  lemma ContainsElementLine(name: string, body: string, other: string)
    requires IsName(name) && IsName(other) && name != other
    ensures Contains(Line(name, CData(body)), Open(other)) <==> Contains(body, Open(other))
  {
    var tag := Open(other);
    NamesMakeTags(name);
    NamesMakeTags(other);
    ContainsCData(body, tag);
    OpenIsNotPrefixOfOther(name, other, "");
    assert Open(name) + "" == Open(name);
    ContainsLiteral(Open(name), tag);
    ContainsJoin(Open(name), CData(body), tag);
    assert (Close(name) + "\n")[1] != tag[1];
    ContainsLiteral(Close(name) + "\n", tag);
    ContainsJoin(Open(name) + CData(body), Close(name) + "\n", tag);
    assert Line(name, CData(body)) == Open(name) + CData(body) + (Close(name) + "\n");
  }

  lemma ContainsPlainElementLine(name: string, body: string, other: string)
    requires IsName(name) && IsName(other) && name != other
    requires forall i :: 0 <= i < |body| ==> body[i] != '<'
    ensures !Contains(Line(name, body), Open(other))
  {
    var tag := Open(other);
    NamesMakeTags(name);
    NamesMakeTags(other);
    OpenIsNotPrefixOfOther(name, other, body);
    ContainsLiteral(Open(name) + body, tag);
    assert (Close(name) + "\n")[1] != tag[1];
    ContainsLiteral(Close(name) + "\n", tag);
    ContainsJoin(Open(name) + body, Close(name) + "\n", tag);
    assert Line(name, body) == Open(name) + body + (Close(name) + "\n");
  }

  /** A tag is found at its own place exactly when nothing in front of it contains it. */
  lemma FindAtJoin(front: string, tag: string, rest: string)
    requires IsTag(tag)
    ensures Find(front + tag + rest, tag) == Some(|front|) <==> !Contains(front, tag)
    ensures Find(front + tag + rest, tag).Some? && Find(front + tag + rest, tag).value <= |front|
  {
    var s := front + tag + rest;
    assert s[|front|..|front| + |tag|] == tag;
    assert OccursAt(s, tag, |front|);
    if Contains(front, tag) {
      var i :| OccursAt(front, tag, i);
      assert s[i..i + |tag|] == front[i..i + |tag|];
      assert OccursAt(s, tag, i);
    } else {
      forall i | 0 <= i < |front| ensures !OccursAt(s, tag, i) {
        if i + |tag| <= |front| {
          assert front[i..i + |tag|] == s[i..i + |tag|];
          assert !OccursAt(front, tag, i);
        } else if i + |tag| <= |s| {
          assert s[i..i + |tag|][|front| - i] == s[|front|] == tag[0];
        }
      }
      FindFirst(s, tag, |front|);
    }
  }

  // ----- recovering one element -----

  lemma ElementParts(front: string, name: string, body: string, rest: string)
    ensures var s, after := front + Element(name, body) + rest, body + Close(name) + rest;
      s == front + Open(name) + after && s[|front| + |Open(name)|..] == after
  {}

  lemma ExtractBody(front: string, name: string, body: string, rest: string)
    requires IsName(name) && !Contains(front, Open(name))
    ensures var found := Find(body + Close(name) + rest, Close(name));
      && found.Some? && found.value <= |body|
      && (found.value == |body| <==> !Contains(body, Close(name)))
      && Extract(front + Element(name, body) + rest, name) == Some(StripCData(body[..found.value]))
  {
    NamesMakeTags(name);
    var s, after := front + Element(name, body) + rest, body + Close(name) + rest;
    ElementParts(front, name, body, rest);
    FindAtJoin(front, Open(name), after);
    FindAtJoin(body, Close(name), rest);
    var found := Find(after, Close(name));
    assert after[..found.value] == body[..found.value];
  }

  lemma StripWrapped(body: string)
    ensures StripCData(CData(body)) == body
  {
    assert EndsWith(CData(body), CDATA_CLOSE);
  }

  lemma WrappedTextSurvives(front: string, name: string, text: string, rest: string)
    requires IsName(name) && !Contains(front, Open(name)) && !Contains(text, Close(name))
    ensures Extract(front + Element(name, CData(text)) + rest, name) == Some(text)
  {
    var body := CData(text);
    NamesMakeTags(name);
    ContainsCData(text, Close(name));
    ExtractBody(front, name, body, rest);
    assert body[..|body|] == body;
    StripWrapped(text);
  }

  /** Cut at the tag inside it, what is left is too short to be the text. */
  lemma WrappedTextBroken(front: string, name: string, text: string, rest: string)
    requires IsName(name) && |name| >= 7 && !Contains(front, Open(name)) && Contains(text, Close(name))
    ensures Extract(front + Element(name, CData(text)) + rest, name) != Some(text)
  {
    var body, close := CData(text), Close(name);
    ExtractBody(front, name, body, rest);
    var i :| OccursAt(text, close, i);
    OccursBehind(CDATA_OPEN, text, close, i);
    OccursInFront(CDATA_OPEN + text, CDATA_CLOSE, close, 9 + i);
    OccursInFront(body, close, close, 9 + i);
    OccursInFront(body + close, rest, close, 9 + i);
    FindNoLaterThan(body + close + rest, close, 9 + i);
    StripShortens(body[..Find(body + close + rest, close).value]);
  }

  lemma StripShortens(raw: string)
    ensures |StripCData(raw)| <= |raw|
  {
    if CDATA_OPEN <= raw && EndsWith(raw, CDATA_CLOSE) {
      CDataSliceInBounds(raw);
    }
  }

  /** A wrapped text comes back exactly when it does not contain its own closing tag. */
  lemma WrappedTextRecovered(front: string, name: string, text: string, rest: string)
    requires IsName(name) && |name| >= 7 && !Contains(front, Open(name))
    ensures Extract(front + Element(name, CData(text)) + rest, name) == Some(text) <==> !Contains(text, Close(name))
  {
    if Contains(text, Close(name)) {
      WrappedTextBroken(front, name, text, rest);
    } else {
      WrappedTextSurvives(front, name, text, rest);
    }
  }

  lemma CutHasNoClose(rest: string, close: string, shift: nat, text: string)
    requires Find(rest, close).Some?
    requires var raw := rest[..Find(rest, close).value]; shift + |text| <= |raw| && text == raw[shift..shift + |text|]
    requires close != ""
    ensures !Contains(text, close)
  {
    var end := Find(rest, close).value;
    assert forall j :: 0 <= j < |text| ==> text[j] == rest[..end][shift + j] == rest[shift + j];
    forall i ensures !OccursAt(text, close, i) {
      if 0 <= i && i + |close| <= |text| {
        assert text[i..i + |close|] == rest[shift + i..shift + i + |close|];
        assert !OccursAt(rest, close, shift + i);
      }
    }
  }

  /** An extracted text never contains the closing tag it was cut at. */
  lemma ExtractedHasNoClose(xml: string, name: string)
    requires Extract(xml, name).Some?
    ensures !Contains(Extract(xml, name).value, Close(name))
  {
    var rest := xml[Find(xml, Open(name)).value + |Open(name)|..];
    var raw, text := rest[..Find(rest, Close(name)).value], Extract(xml, name).value;
    if CDATA_OPEN <= raw && EndsWith(raw, CDATA_CLOSE) {
      CDataSliceInBounds(raw);
      CutHasNoClose(rest, Close(name), 9, text);
    } else {
      CutHasNoClose(rest, Close(name), 0, text);
    }
  }

  lemma ParsedHasNoClose(xml: string, name: string)
    requires IsName(name)
    ensures !Contains(Extract(xml, name).GetOr(""), Close(name))
  {
    NamesMakeTags(name);
    if Extract(xml, name).Some? {
      ExtractedHasNoClose(xml, name);
    } else {
      ContainsLiteral("", Close(name));
    }
  }

  // ----- documents that open the element earlier -----

  /** The first occurrence is not moved by what follows. */
  lemma FindInFront(front: string, back: string, tag: string)
    requires Contains(front, tag)
    ensures Find(front + back, tag) == Find(front, tag)
  {
    var s, i := front + back, Find(front, tag).value;
    OccursInFront(front, back, tag, i);
    forall j | 0 <= j < i ensures !OccursAt(s, tag, j) {
      assert s[j..j + |tag|] == front[j..j + |tag|];
      assert !OccursAt(front, tag, j);
    }
    FindFirst(s, tag, i);
  }

  lemma UnclosedBefore(before: string, name: string, text: string)
    requires IsName(name) && !Contains(before, Close(name)) && !Contains(text, Close(name))
    ensures !Contains(before + (Open(name) + CData(text)), Close(name))
  {
    NamesMakeTags(name);
    ContainsCData(text, Close(name));
    ContainsLiteral(Open(name), Close(name));
    ContainsJoin(Open(name), CData(text), Close(name));
    ContainsJoin(before, Open(name) + CData(text), Close(name));
  }

  /** Opened too early and closed only at its own end, the element holds too much. */
  lemma TooMuchExtracted(before: string, name: string, text: string, rest: string)
    requires IsName(name) && !Contains(before, Close(name)) && !Contains(text, Close(name))
    ensures var after := before + (Element(name, CData(text)) + rest);
      Find(after, Close(name)).Some? && |StripCData(after[..Find(after, Close(name)).value])| > |text|
  {
    var raw := before + (Open(name) + CData(text));
    var after := before + (Element(name, CData(text)) + rest);
    NamesMakeTags(name);
    UnclosedBefore(before, name, text);
    assert after == raw + Close(name) + rest;
    FindAtJoin(raw, Close(name), rest);
    assert after[..|raw|] == raw;
    StripShortensLittle(raw);
  }

  lemma StripShortensLittle(raw: string)
    ensures |StripCData(raw)| >= |raw| - 12
  {
    if CDATA_OPEN <= raw && EndsWith(raw, CDATA_CLOSE) {
      CDataSliceInBounds(raw);
    }
  }

  /** What extraction finds behind the opening tag. */
  function Closed(rest: string, close: string): Option<string> {
    match Find(rest, close)
    case None => None
    case Some(end) => Some(StripCData(rest[..end]))
  }

  lemma ExtractBehind(xml: string, name: string, i: nat)
    requires Find(xml, Open(name)) == Some(i)
    ensures i + |Open(name)| <= |xml| && Extract(xml, name) == Closed(xml[i + |Open(name)|..], Close(name))
  {}

  lemma ClosedInFront(before: string, back: string, close: string)
    requires Contains(before, close)
    ensures Closed(before + back, close) == Closed(before, close)
  {
    FindInFront(before, back, close);
    var end := Find(before, close).value;
    assert (before + back)[..end] == before[..end];
  }

  lemma DropInFront(a: string, b: string, k: nat)
    requires k <= |a|
    ensures (a + b)[k..] == a[k..] + b
  {}

  /** Where a document opens the element before its line, the line is not seen. */
  lemma OpenedBefore(front: string, name: string, text: string, rest: string)
    requires IsName(name) && Contains(front, Open(name))
    ensures Extract(front + (Element(name, CData(text)) + rest), name) == Some(text)
      <==> Extract(front, name) == Some(text)
  {
    var back := Element(name, CData(text)) + rest;
    FindInFront(front, back, Open(name));
    var i := Find(front, Open(name)).value;
    ExtractBehind(front, name, i);
    ExtractBehind(front + back, name, i);
    DropInFront(front, back, i + |Open(name)|);
    var before := front[i + |Open(name)|..];
    if Contains(before, Close(name)) {
      ClosedInFront(before, back, Close(name));
    } else if Contains(text, Close(name)) {
      if Extract(front + back, name).Some? {
        ExtractedHasNoClose(front + back, name);
      }
    } else {
      TooMuchExtracted(before, name, text, rest);
    }
  }

  lemma ContainsSuffix(s: string, at: nat, tag: string)
    requires at <= |s| && Contains(s[at..], tag)
    ensures Contains(s, tag)
  {
    var i :| OccursAt(s[at..], tag, i);
    OccursBehind(s[..at], s[at..], tag, i);
    assert s[..at] + s[at..] == s;
  }

  /** Nothing can be extracted where nothing is closed. */
  lemma ExtractNeedsClose(xml: string, name: string)
    requires !Contains(xml, Close(name))
    ensures Extract(xml, name) == None
  {
    if Extract(xml, name).Some? {
      var i := Find(xml, Open(name)).value;
      ExtractBehind(xml, name, i);
      ContainsSuffix(xml, i + |Open(name)|, Close(name));
    }
  }

  // ----- the printed reply, read back -----

  lemma HeaderHasNoTag(name: string)
    requires IsName(name) && name != "xml"
    ensures !Contains("<xml>\n", Open(name))
  {
    NamesMakeTags(name);
    assert "<xml>\n" == Open("xml") + "\n";
    OpenIsNotPrefixOfOther("xml", name, "\n");
    ContainsLiteral("<xml>\n", Open(name));
  }

  lemma ContainsBeforeTime(to: string, from: string, name: string)
    requires IsName(name) && name != "xml" && name != "ToUserName"
    ensures Contains(BeforeFrom(to), Open(name)) <==> Contains(to, Open(name))
    ensures name != "FromUserName" ==>
      (Contains(BeforeTime(to, from), Open(name)) <==> Contains(to, Open(name)) || Contains(from, Open(name)))
  {
    NamesMakeTags(name);
    HeaderHasNoTag(name);
    ContainsElementLine("ToUserName", to, name);
    ContainsJoin("<xml>\n", Line("ToUserName", CData(to)), Open(name));
    if name != "FromUserName" {
      ContainsElementLine("FromUserName", from, name);
      ContainsJoin(BeforeFrom(to), Line("FromUserName", CData(from)), Open(name));
    }
  }

  lemma PlainNumber(timestamp: int)
    ensures forall i :: 0 <= i < |ShowInt(timestamp)| ==> ShowInt(timestamp)[i] != '<' && ShowInt(timestamp)[i] != ']'
  {
    assert AllDigits(DigitsOf(if timestamp < 0 then -timestamp else timestamp));
    assert !IsDigit('<') && !IsDigit(']');
  }

  lemma ContainsBeforeType(to: string, from: string, timestamp: int, name: string)
    requires IsName(name) && name !in {"xml", "ToUserName", "FromUserName", "CreateTime"}
    ensures Contains(BeforeType(to, from, timestamp), Open(name))
      <==> Contains(to, Open(name)) || Contains(from, Open(name))
  {
    PlainNumber(timestamp);
    NamesMakeTags(name);
    ContainsBeforeTime(to, from, name);
    ContainsPlainElementLine("CreateTime", ShowInt(timestamp), name);
    ContainsJoin(BeforeTime(to, from), Line("CreateTime", ShowInt(timestamp)), Open(name));
  }

  lemma TypeLineHasNoTag(name: string)
    requires IsName(name) && name != "MsgType"
    ensures !Contains(Line("MsgType", CData("text")), Open(name))
  {
    NamesMakeTags(name);
    ContainsElementLine("MsgType", "text", name);
    ContainsLiteral("text", Open(name));
  }

  lemma ContainsBeforeContent(to: string, from: string, timestamp: int, name: string)
    requires IsName(name) && name !in {"xml", "ToUserName", "FromUserName", "CreateTime", "MsgType"}
    ensures Contains(BeforeContent(to, from, timestamp), Open(name))
      <==> Contains(to, Open(name)) || Contains(from, Open(name))
  {
    NamesMakeTags(name);
    ContainsBeforeType(to, from, timestamp, name);
    TypeLineHasNoTag(name);
    ContainsJoin(BeforeType(to, from, timestamp), Line("MsgType", CData("text")), Open(name));
  }

  /** A tag the printer does not use occurs in a reply exactly when an argument brings it along. */
  lemma ContainsReply(to: string, from: string, content: string, timestamp: int, name: string)
    requires IsName(name) && name !in {"xml", "ToUserName", "FromUserName", "CreateTime", "MsgType", "Content"}
    ensures Contains(TextReply(to, from, content, timestamp), Open(name))
      <==> Contains(to, Open(name)) || Contains(from, Open(name)) || Contains(content, Open(name))
  {
    NamesMakeTags(name);
    ContainsBeforeContent(to, from, timestamp, name);
    ContainsFromContent(content, name);
    ContainsJoin(BeforeContent(to, from, timestamp), FromContent(content), Open(name));
  }

  lemma ContainsFromContent(content: string, name: string)
    requires IsName(name) && name != "Content"
    ensures Contains(FromContent(content), Open(name)) <==> Contains(content, Open(name))
  {
    NamesMakeTags(name);
    ContainsElementLine("Content", content, name);
    ContainsLiteral("</xml>", Open(name));
    ContainsJoin(Line("Content", CData(content)), "</xml>", Open(name));
  }

  /** The document from the line of each element on. */
  function FromContent(content: string): string { Line("Content", CData(content)) + "</xml>" }

  function FromType(content: string): string { Line("MsgType", CData("text")) + FromContent(content) }

  function FromTime(content: string, timestamp: int): string {
    Line("CreateTime", ShowInt(timestamp)) + FromType(content)
  }

  function FromFrom(from: string, content: string, timestamp: int): string {
    Line("FromUserName", CData(from)) + FromTime(content, timestamp)
  }

  function FromTo(to: string, from: string, content: string, timestamp: int): string {
    Line("ToUserName", CData(to)) + FromFrom(from, content, timestamp)
  }

  lemma Associative(a: string, b: string, c: string)
    ensures (a + b) + c == a + (b + c)
  {}

  // The document can be cut in front of every element.

  lemma CutAtType(to: string, from: string, content: string, timestamp: int)
    ensures TextReply(to, from, content, timestamp) == BeforeType(to, from, timestamp) + FromType(content)
  {
    Associative(BeforeType(to, from, timestamp), Line("MsgType", CData("text")), FromContent(content));
  }

  lemma CutAtTime(to: string, from: string, content: string, timestamp: int)
    ensures TextReply(to, from, content, timestamp) == BeforeTime(to, from) + FromTime(content, timestamp)
  {
    CutAtType(to, from, content, timestamp);
    Associative(BeforeTime(to, from), Line("CreateTime", ShowInt(timestamp)), FromType(content));
  }

  lemma CutAtFrom(to: string, from: string, content: string, timestamp: int)
    ensures TextReply(to, from, content, timestamp) == BeforeFrom(to) + FromFrom(from, content, timestamp)
  {
    CutAtTime(to, from, content, timestamp);
    Associative(BeforeFrom(to), Line("FromUserName", CData(from)), FromTime(content, timestamp));
  }

  lemma CutAtTo(to: string, from: string, content: string, timestamp: int)
    ensures TextReply(to, from, content, timestamp) == "<xml>\n" + FromTo(to, from, content, timestamp)
  {
    CutAtFrom(to, from, content, timestamp);
    Associative("<xml>\n", Line("ToUserName", CData(to)), FromFrom(from, content, timestamp));
  }

  lemma LineInFront(front: string, name: string, body: string, tail: string)
    ensures front + (Line(name, body) + tail) == front + Element(name, body) + ("\n" + tail)
  {}

  lemma UnopenedLineRecovered(front: string, name: string, text: string, tail: string)
    requires IsName(name) && |name| >= 7 && !Contains(front, Open(name))
    ensures Extract(front + (Line(name, CData(text)) + tail), name) == Some(text) <==> !Contains(text, Close(name))
  {
    LineInFront(front, name, CData(text), tail);
    WrappedTextRecovered(front, name, text, "\n" + tail);
  }

  lemma OpenedLineRecovered(front: string, name: string, text: string, tail: string)
    requires IsName(name) && Contains(front, Open(name))
    ensures Extract(front + (Line(name, CData(text)) + tail), name) == Some(text)
      <==> Extract(front, name) == Some(text)
  {
    LineInFront(front, name, CData(text), tail);
    OpenedBefore(front, name, text, "\n" + tail);
    Associative(front, Element(name, CData(text)), "\n" + tail);
  }

  /** What a document gives back of a wrapped line, whatever stands before and behind it. */
  lemma LineRecovered(front: string, name: string, text: string, tail: string)
    requires IsName(name) && |name| >= 7
    ensures Extract(front + (Line(name, CData(text)) + tail), name) == Some(text) <==>
      if Contains(front, Open(name)) then Extract(front, name) == Some(text) else !Contains(text, Close(name))
  {
    if Contains(front, Open(name)) {
      OpenedLineRecovered(front, name, text, tail);
    } else {
      UnopenedLineRecovered(front, name, text, tail);
    }
  }

  lemma PlainLineRecovered(front: string, name: string, body: string, tail: string)
    requires IsName(name) && !Contains(front, Open(name)) && Plain(body)
    ensures Extract(front + (Line(name, body) + tail), name) == Some(StripCData(body))
  {
    LineInFront(front, name, body, tail);
    NamesMakeTags(name);
    PlainContainsNoTag(body, Close(name));
    ExtractBody(front, name, body, "\n" + tail);
    assert body[..|body|] == body;
  }

  /** The receiver comes back exactly when it does not contain its closing tag, whatever the rest is. */
  lemma ReceiverRecovered(to: string, from: string, content: string, timestamp: int)
    ensures Extract(TextReply(to, from, content, timestamp), "ToUserName") == Some(to)
      <==> !Contains(to, Close("ToUserName"))
  {
    CutAtTo(to, from, content, timestamp);
    HeaderHasNoTag("ToUserName");
    UnopenedLineRecovered("<xml>\n", "ToUserName", to, FromFrom(from, content, timestamp));
  }

  /** The sender comes back exactly when it does not contain its closing tag, unless the receiver opens a sender
      element: then exactly when that happens to hold the sender. */
  lemma SenderRecovered(to: string, from: string, content: string, timestamp: int)
    ensures Extract(TextReply(to, from, content, timestamp), "FromUserName") == Some(from) <==>
      if Contains(to, Open("FromUserName")) then Extract(BeforeFrom(to), "FromUserName") == Some(from)
      else !Contains(from, Close("FromUserName"))
  {
    CutAtFrom(to, from, content, timestamp);
    ContainsBeforeTime(to, from, "FromUserName");
    LineRecovered(BeforeFrom(to), "FromUserName", from, FromTime(content, timestamp));
  }

  /** Even a content with "]]>" in it comes back; only its closing tag breaks it, or an address that opens a content
      element which does not happen to hold the content. */
  lemma ContentRecovered(to: string, from: string, content: string, timestamp: int)
    ensures Extract(TextReply(to, from, content, timestamp), "Content") == Some(content) <==>
      if Contains(to, Open("Content")) || Contains(from, Open("Content"))
      then Extract(BeforeContent(to, from, timestamp), "Content") == Some(content)
      else !Contains(content, Close("Content"))
  {
    ContainsBeforeContent(to, from, timestamp, "Content");
    LineRecovered(BeforeContent(to, from, timestamp), "Content", content, "</xml>");
  }

  lemma TypeRecovered(to: string, from: string, content: string, timestamp: int)
    requires !Contains(to, Open("MsgType")) && !Contains(from, Open("MsgType"))
    ensures Extract(TextReply(to, from, content, timestamp), "MsgType") == Some("text")
  {
    CutAtType(to, from, content, timestamp);
    ContainsBeforeType(to, from, timestamp, "MsgType");
    PlainContainsNoTag("text", Close("MsgType"));
    LineRecovered(BeforeType(to, from, timestamp), "MsgType", "text", FromContent(content));
  }

  lemma TimeRecovered(to: string, from: string, content: string, timestamp: int)
    requires !Contains(to, Open("CreateTime")) && !Contains(from, Open("CreateTime"))
    ensures Extract(TextReply(to, from, content, timestamp), "CreateTime") == Some(ShowInt(timestamp))
  {
    CutAtTime(to, from, content, timestamp);
    ContainsBeforeTime(to, from, "CreateTime");
    NumberUnwrapped(timestamp);
    PlainLineRecovered(BeforeTime(to, from), "CreateTime", ShowInt(timestamp), FromType(content));
  }

  lemma NumberUnwrapped(timestamp: int)
    ensures Plain(ShowInt(timestamp)) && StripCData(ShowInt(timestamp)) == ShowInt(timestamp)
  {
    PlainNumber(timestamp);
    assert ShowInt(timestamp)[0] != CDATA_OPEN[0];
  }

  predicate Plain(s: string) { forall i :: 0 <= i < |s| ==> s[i] != '<' }

  lemma PlainContainsNoTag(s: string, tag: string)
    requires Plain(s) && IsTag(tag)
    ensures !Contains(s, tag)
  {
    ContainsLiteral(s, tag);
  }

  lemma PlainAddress(s: string)
    requires Plain(s)
    ensures !Contains(s, Close("ToUserName")) && !Contains(s, Close("FromUserName"))
    ensures !Contains(s, Open("FromUserName")) && !Contains(s, Open("Content"))
    ensures !Contains(s, Open("CreateTime")) && !Contains(s, Open("MsgType")) && !Contains(s, Open("MsgId"))
  {
    PlainContainsNoTag(s, Open("MsgId"));
    PlainContainsNoTag(s, Close("ToUserName"));
    PlainContainsNoTag(s, Close("FromUserName"));
    PlainContainsNoTag(s, Open("FromUserName"));
    PlainContainsNoTag(s, Open("Content"));
    PlainContainsNoTag(s, Open("CreateTime"));
    PlainContainsNoTag(s, Open("MsgType"));
  }

  lemma {:induction false} ReplyExtracts(to: string, from: string, content: string, timestamp: int)
    requires Plain(to) && Plain(from)
    ensures var reply := TextReply(to, from, content, timestamp);
      && Extract(reply, "ToUserName") == Some(to)
      && Extract(reply, "FromUserName") == Some(from)
      && Extract(reply, "CreateTime") == Some(ShowInt(timestamp))
      && Extract(reply, "MsgType") == Some("text")
      && (Extract(reply, "Content") == Some(content) <==> !Contains(content, Close("Content")))
  {
    PlainAddress(to);
    PlainAddress(from);
    ReceiverRecovered(to, from, content, timestamp);
    SenderRecovered(to, from, content, timestamp);
    ContentRecovered(to, from, content, timestamp);
    TypeRecovered(to, from, content, timestamp);
    TimeRecovered(to, from, content, timestamp);
  }

  lemma NoMessageId(to: string, from: string, content: string, timestamp: int)
    requires Plain(to) && Plain(from)
    ensures !Contains(content, Open("MsgId")) ==> Extract(TextReply(to, from, content, timestamp), "MsgId") == None
  {
    PlainAddress(to);
    PlainAddress(from);
    ContainsReply(to, from, content, timestamp, "MsgId");
    var reply := TextReply(to, from, content, timestamp);
    assert Find(reply, Open("MsgId")).Some? ==> OccursAt(reply, Open("MsgId"), Find(reply, Open("MsgId")).value);
  }

  /** Printer and parser undo each other for plain addresses exactly when the content keeps clear of its closing tag. */
  lemma {:induction false} ReplyRoundTrip(to: string, from: string, content: string, timestamp: int, now: int)
    requires Plain(to) && Plain(from) && IsI64(timestamp)
    ensures var event := Parse(TextReply(to, from, content, timestamp), now);
      && event.chatId == Some(to) && event.senderId == event.senderName == Some(from)
      && event.timestamp == timestamp && event.msgType == "text"
      && (event.text == Some(content) <==> !Contains(content, Close("Content")))
      && (!Contains(content, Open("MsgId")) ==> event.messageId == None)
  {
    NoMessageId(to, from, content, timestamp);
    ReplyExtracts(to, from, content, timestamp);
    ParseShown(timestamp);
  }

  // ----- what is parsed of an arbitrary document -----

  /** The first element with the name counts: its text up to the first closing tag, out of its CDATA marks. */
  lemma FirstElementCounts(front: string, name: string, text: string, rest: string)
    requires IsName(name) && !Contains(front, Open(name)) && !Contains(text, Close(name))
    ensures Extract(front + Element(name, CData(text)) + rest, name) == Some(text)
    ensures Plain(text) ==> Extract(front + Element(name, text) + rest, name) == Some(text)
  {
    WrappedTextSurvives(front, name, text, rest);
    if Plain(text) {
      ExtractBody(front, name, text, rest);
      assert text[..|text|] == text;
      assert text != "" ==> text[0] != CDATA_OPEN[0];
    }
  }

  /** The parser files the message id under its own name, in CDATA marks or without. */
  lemma MessageIdParsed(front: string, id: string, rest: string, now: int)
    requires !Contains(front, Open("MsgId")) && !Contains(id, Close("MsgId"))
    ensures Parse(front + Element("MsgId", CData(id)) + rest, now).messageId == Some(id)
    ensures Plain(id) ==> Parse(front + Element("MsgId", id) + rest, now).messageId == Some(id)
  {
    FirstElementCounts(front, "MsgId", id, rest);
  }

  /** So it does with the message type. */
  lemma MessageTypeParsed(front: string, kind: string, rest: string, now: int)
    requires !Contains(front, Open("MsgType")) && !Contains(kind, Close("MsgType"))
    ensures Parse(front + Element("MsgType", CData(kind)) + rest, now).msgType == kind
  {
    FirstElementCounts(front, "MsgType", kind, rest);
  }

  /** The time of a message is the number in its CreateTime, and the time of parsing when that is missing or no
      64-bit number. */
  lemma MessageTime(xml: string, now: int)
    ensures var written := Extract(xml, "CreateTime");
      Parse(xml, now).timestamp ==
        if written.Some? && ParseI64(written.value).Some? then ParseI64(written.value).value else now
  {}

  lemma AcknowledgementKeepsClear(text: string)
    requires !Contains(text, Close("Content"))
    ensures !Contains(Acknowledgement(text), Close("Content"))
  {
    NamesMakeTags("Content");
    ContainsLiteral("收到消息！", Close("Content"));
    ContainsDropFront("已收到：", text, Close("Content"));
  }

  lemma ReceiverLineEnds()
    ensures !Contains(Close("ToUserName") + "\n", Close("FromUserName"))
  {
    var end := Close("ToUserName") + "\n";
    NamesMakeTags("FromUserName");
    assert end[2] == 'T' && Close("FromUserName")[2] == 'F';
    ContainsLiteral(end, Close("FromUserName"));
  }

  lemma ReceiverLineStarts(rest: string)
    ensures Contains("<xml>\n<ToUserName>" + rest, Close("FromUserName")) <==> Contains(rest, Close("FromUserName"))
  {
    NamesMakeTags("FromUserName");
    ContainsDropFront("<xml>\n<ToUserName>", rest, Close("FromUserName"));
  }

  lemma ReceiverLineParts(to: string)
    ensures BeforeFrom(to) == "<xml>\n<ToUserName>" + (CData(to) + (Close("ToUserName") + "\n"))
  {
    assert "<xml>\n<ToUserName>" == "<xml>\n" + Open("ToUserName");
  }

  /** A receiver that does not close a sender element leaves no sender in front. */
  lemma NoSenderBefore(to: string)
    requires !Contains(to, Close("FromUserName"))
    ensures Extract(BeforeFrom(to), "FromUserName") == None
  {
    NamesMakeTags("FromUserName");
    ContainsCData(to, Close("FromUserName"));
    ReceiverLineEnds();
    ContainsJoin(CData(to), Close("ToUserName") + "\n", Close("FromUserName"));
    ReceiverLineStarts(CData(to) + (Close("ToUserName") + "\n"));
    ReceiverLineParts(to);
    ExtractNeedsClose(BeforeFrom(to), "FromUserName");
  }

  /** What a reply gives back of addresses and a text that have been extracted before. */
  lemma ExtractedReply(to: string, from: string, content: string, timestamp: int)
    requires !Contains(to, Close("FromUserName")) && !Contains(content, Close("Content"))
    ensures var reply := TextReply(to, from, content, timestamp);
      && (Extract(reply, "ToUserName") == Some(to) <==> !Contains(to, Close("ToUserName")))
      && (Extract(reply, "FromUserName") == Some(from)
          <==> !Contains(to, Open("FromUserName")) && !Contains(from, Close("FromUserName")))
      && (Extract(reply, "Content") == Some(content) <==> ContentNotHidden(to, from, content, timestamp))
  {
    ReceiverRecovered(to, from, content, timestamp);
    SenderRecovered(to, from, content, timestamp);
    NoSenderBefore(to);
    ContentRecovered(to, from, content, timestamp);
  }

  /** No address opens a content element, or what it opens happens to hold this content. */
  ghost predicate ContentNotHidden(to: string, from: string, content: string, timestamp: int) {
    Contains(to, Open("Content")) || Contains(from, Open("Content")) ==>
      Extract(BeforeContent(to, from, timestamp), "Content") == Some(content)
  }

  function SenderOf(xml: string): string { Extract(xml, "FromUserName").GetOr("") }

  function ReceiverOf(xml: string): string { Extract(xml, "ToUserName").GetOr("") }

  function AnswerTo(xml: string): string { Acknowledgement(Extract(xml, "Content").GetOr("")) }

  /** For every input the handler answers the sender. The reply's receiver is the input's sender exactly when that
      does not contain the receiver's closing tag; its sender is the input's receiver exactly when that does not
      contain the sender's closing tag, nor the input's sender its opening tag. The answer's text is read back, since
      an extracted text never contains its closing tag, unless an address opens another content before it. */
  lemma {:induction false} HandlerSwapsAddresses(xml: string, now: int, later: int)
    ensures var reply := Parse(HandleMessage(xml, now), later);
      && (reply.chatId == Some(SenderOf(xml)) <==> !Contains(SenderOf(xml), Close("ToUserName")))
      && (reply.senderId == Some(ReceiverOf(xml))
          <==> !Contains(SenderOf(xml), Open("FromUserName")) && !Contains(ReceiverOf(xml), Close("FromUserName")))
      && (reply.text == Some(AnswerTo(xml)) <==> ContentNotHidden(SenderOf(xml), ReceiverOf(xml), AnswerTo(xml), now))
  {
    ParsedHasNoClose(xml, "FromUserName");
    ParsedHasNoClose(xml, "Content");
    AcknowledgementKeepsClear(Extract(xml, "Content").GetOr(""));
    ExtractedReply(SenderOf(xml), ReceiverOf(xml), AnswerTo(xml), now);
  }

  /** What the handler says to a text: it is echoed behind the acknowledgement; nothing or an empty text is only
      acknowledged. The reply parses back to that, unless an address opens another content before it. */
  lemma HandlerAnswersText(xml: string, now: int, later: int)
    ensures var text, reply := Parse(xml, now).text, Parse(HandleMessage(xml, now), later).text;
      var said := if text.Some? && text.value != "" then "已收到：" + text.value else "收到消息！";
      && (reply == Some(said) <==> ContentNotHidden(SenderOf(xml), ReceiverOf(xml), said, now))
      && (!Contains(SenderOf(xml), Open("Content")) && !Contains(ReceiverOf(xml), Open("Content")) ==>
          reply == Some(said))
  {
    HandlerSwapsAddresses(xml, now, later);
  }

  /** The reply carries the time at which it was written, unless an address opens another time before it. */
  lemma HandlerStampsReply(xml: string, now: int, later: int)
    requires IsI64(now)
    requires !Contains(SenderOf(xml), Open("CreateTime")) && !Contains(ReceiverOf(xml), Open("CreateTime"))
    ensures Parse(HandleMessage(xml, now), later).timestamp == now
  {
    TimeRecovered(SenderOf(xml), ReceiverOf(xml), AnswerTo(xml), now);
    ParseShown(now);
  }

  lemma AddressesHaveNoClose(xml: string)
    ensures !Contains(ReceiverOf(xml), Close("ToUserName")) && !Contains(SenderOf(xml), Close("FromUserName"))
  {
    ParsedHasNoClose(xml, "ToUserName");
    ParsedHasNoClose(xml, "FromUserName");
  }

  lemma AnswerSwapsBack(reply: string, sender: string, receiver: string, now: int)
    requires ReceiverOf(reply) == sender && SenderOf(reply) == receiver
    requires !Contains(receiver, Close("ToUserName")) && !Contains(sender, Close("FromUserName"))
    ensures var answer := Parse(HandleMessage(reply, now), now);
      && answer.chatId == Some(receiver)
      && (answer.senderId == Some(sender) <==> !Contains(receiver, Open("FromUserName")))
  {
    HandlerSwapsAddresses(reply, now, now);
  }

  /** Answering a reply that carries a message's addresses swapped leads back to the message's receiver, and to its
      sender exactly when the receiver does not contain the sender's opening tag. */
  lemma {:induction false} HandlerTwiceRestoresAddresses(xml: string, reply: string, t2: int)
    requires ReceiverOf(reply) == SenderOf(xml) && SenderOf(reply) == ReceiverOf(xml)
    ensures var answer := Parse(HandleMessage(reply, t2), t2);
      && answer.chatId == Some(ReceiverOf(xml))
      && (answer.senderId == Some(SenderOf(xml)) <==> !Contains(ReceiverOf(xml), Open("FromUserName")))
  {
    AddressesHaveNoClose(xml);
    AnswerSwapsBack(reply, SenderOf(xml), ReceiverOf(xml), t2);
  }
}
