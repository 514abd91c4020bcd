/** Cobbler's XML-RPC codec above the XML tokeniser: what the decoders make of any token sequence, the documents an
    encoder may produce, and the round trip between them. */
module XmlRpc {
  import opened Common
  import opened GoText

  /** What the tokeniser delivers. Misc stands for comments, processing instructions and directives. */
  datatype Token = Start(name: string) | End(name: string) | Text(text: string) | Misc

  /** A float is known by the text Go's %g prints for it. */
  datatype Value =
    | Str(s: string)
    | Bool(b: bool)
    | Int(n: Int64)
    | Double(text: string)
    | Struct(members: map<string, Value>)
    | Array(items: seq<Value>)
    | Nil

  /** EndOfInput also stands for the tokeniser's own syntax errors: the sequence is what it delivers before
      failing. */
  datatype Failure = EndOfInput | BadNumber

  type Decoded<T> = Result<(T, seq<Token>), Failure>

  /** Every decoder returns what it read and the tokens left; it leaves a proper suffix of what it was given. */
  ghost predicate Consumes<T>(toks: seq<Token>, r: Decoded<T>) {
    r.Ok? ==> |r.value.1| < |toks| && r.value.1 == toks[|toks| - |r.value.1|..]
  }

  /** `validFloat` is what strconv.ParseFloat accepts. */
  datatype Codec = Codec(validFloat: string -> bool) {

    /** readText: character data up to the next end tag. */
    function ReadText(toks: seq<Token>, text: string): (r: Decoded<string>)
      ensures Consumes(toks, r)
      decreases |toks|
    {
      if toks == [] then Err(EndOfInput)
      else
        match toks[0]
        case Text(t) => ReadText(toks[1..], text + t)
        case End(_) => Ok((text, toks[1..]))
        case _ => ReadText(toks[1..], text)
    }

    /** skipTo: everything up to the next end tag of that name. */
    function SkipTo(toks: seq<Token>, name: string): (r: Decoded<Value>)
      ensures Consumes(toks, r)
      decreases |toks|
    {
      if toks == [] then Err(EndOfInput)
      else if toks[0] == End(name) then Ok((Nil, toks[1..]))
      else SkipTo(toks[1..], name)
    }

    /** The value a scalar element's text stands for. */
    function Scalar(name: string, text: string): Result<Value, Failure> {
      if name == "string" then Ok(Str(text))
      else if name == "int" || name == "i4" then
        var n := Atoi(TrimSpace(text));
        if n.None? then Err(BadNumber) else Ok(Int(n.value))
      else if name == "boolean" then Ok(Bool(TrimSpace(text) == "1"))
      else if validFloat(TrimSpace(text)) then Ok(Double(TrimSpace(text)))
      else Err(BadNumber)
    }

    predicate IsScalar(name: string) {
      name in {"string", "int", "i4", "boolean", "double"}
    }

    /** The element inside a value, its start tag already read. */
    function DecodeElement(name: string, toks: seq<Token>): (r: Decoded<Value>)
      ensures Consumes(toks, r)
      decreases |toks|, 1
    {
      if IsScalar(name) then
        var t := ReadText(toks, "");
        if t.Err? then Err(t.error)
        else
          var v := Scalar(name, t.value.0);
          if v.Err? then Err(v.error) else Ok((v.value, t.value.1))
      else if name == "struct" then DecodeStruct(toks, map[])
      else if name == "array" then DecodeArray(toks, [])
      else SkipTo(toks, name)
    }

    /** decodeValue: the body of a value up to its end tag. Text counts until an element has been seen; the last
        element wins. */
    function DecodeValue(toks: seq<Token>, chars: string, result: Option<Value>): (r: Decoded<Value>)
      ensures Consumes(toks, r)
      decreases |toks|, 0
    {
      if toks == [] then Err(EndOfInput)
      else
        match toks[0]
        case Text(t) => DecodeValue(toks[1..], if result.None? then chars + t else chars, result)
        case Misc => DecodeValue(toks[1..], chars, result)
        case End(name) =>
          if name == "value" then Ok((if result.Some? then result.value else Str(chars), toks[1..]))
          else DecodeValue(toks[1..], chars, result)
        case Start(name) =>
          var e := DecodeElement(name, toks[1..]);
          if e.Err? then Err(e.error) else DecodeValue(e.value.1, chars, Some(e.value.0))
    }

    function DecodeStruct(toks: seq<Token>, m: map<string, Value>): (r: Decoded<Value>)
      ensures Consumes(toks, r)
      decreases |toks|, 0
    {
      if toks == [] then Err(EndOfInput)
      else if toks[0] == Start("member") then
        var e := DecodeMember(toks[1..], "", Nil);
        if e.Err? then Err(e.error) else DecodeStruct(e.value.1, m[e.value.0.0 := e.value.0.1])
      else if toks[0] == End("struct") then Ok((Struct(m), toks[1..]))
      else DecodeStruct(toks[1..], m)
    }

    function DecodeMember(toks: seq<Token>, name: string, val: Value): (r: Decoded<(string, Value)>)
      ensures Consumes(toks, r)
      decreases |toks|, 0
    {
      if toks == [] then Err(EndOfInput)
      else if toks[0] == Start("name") then
        var t := ReadText(toks[1..], "");
        if t.Err? then Err(t.error) else DecodeMember(t.value.1, t.value.0, val)
      else if toks[0] == Start("value") then
        var e := DecodeValue(toks[1..], "", None);
        if e.Err? then Err(e.error) else DecodeMember(e.value.1, name, e.value.0)
      else if toks[0] == End("member") then Ok(((name, val), toks[1..]))
      else DecodeMember(toks[1..], name, val)
    }

    function DecodeArray(toks: seq<Token>, items: seq<Value>): (r: Decoded<Value>)
      ensures Consumes(toks, r)
      decreases |toks|, 0
    {
      if toks == [] then Err(EndOfInput)
      else if toks[0] == Start("value") then
        var e := DecodeValue(toks[1..], "", None);
        if e.Err? then Err(e.error) else DecodeArray(e.value.1, items + [e.value.0])
      else if toks[0] == End("array") then Ok((Array(items), toks[1..]))
      else DecodeArray(toks[1..], items)
    }
  }

  // ---------------------------------------------------------------------------------------------------------------
  // Documents
  // ---------------------------------------------------------------------------------------------------------------

  /** What may stand between structural tags without meaning anything: character data and comments. */
  predicate Noise(gap: seq<Token>) {
    forall t :: t in gap ==> t.Text? || t.Misc?
  }

  function PieceOf(t: Token): string {
    if t.Text? then t.text else ""
  }

  function TextOf(body: seq<Token>): string {
    if body == [] then "" else PieceOf(body[0]) + TextOf(body[1..])
  }

  /** One way of writing a value down: its members in some order, with some noise in every gap. */
  datatype Doc =
    | Plain(body: seq<Token>)                                                   // an untyped string
    | Leaf(pre: seq<Token>, tag: string, leaf: Value, body: seq<Token>, post: seq<Token>)
    | StructDoc(pre: seq<Token>, members: Members, post: seq<Token>)
    | ArrayDoc(pre: seq<Token>, open: seq<Token>, items: Items, close: seq<Token>, post: seq<Token>)
    | Other(pre: seq<Token>, tag: string, body: seq<Token>, post: seq<Token>)   // a nil, or an element not known

  datatype Members =
    | NoMember(gap: seq<Token>)
    | Member(gap: seq<Token>, beforeName: seq<Token>, name: seq<Token>, afterName: seq<Token>, val: Doc,
             afterVal: seq<Token>, more: Members)

  datatype Items =
    | NoItem(gap: seq<Token>)
    | Item(gap: seq<Token>, item: Doc, more: Items)

  /** White space around a text does not count. */
  ghost predicate Padded(text: string, core: string) {
    exists a, b :: AllSpace(a) && AllSpace(b) && text == a + core + b
  }

  /** The text of a scalar element: white space around numbers and flags is allowed, and a flag is set by a 1 alone. */
  ghost predicate Spells(codec: Codec, tag: string, v: Value, text: string) {
    match v
    case Str(s) => tag == "string" && text == s
    case Bool(b) => tag == "boolean" && exists core :: Trimmed(core) && Padded(text, core) && (b <==> core == "1")
    case Int(n) => (tag == "int" || tag == "i4") && exists core :: IsNumeral(core, n) && Padded(text, core)
    case Double(d) => tag == "double" && Trimmed(d) && Padded(text, d) && codec.validFloat(d)
    case _ => false
  }

  ghost predicate ValidDoc(codec: Codec, doc: Doc) {
    match doc
    case Plain(body) => Noise(body)
    case Leaf(pre, tag, v, body, post) => Noise(pre) && Noise(body) && Noise(post)
        && Spells(codec, tag, v, TextOf(body))
    case StructDoc(pre, members, post) => Noise(pre) && ValidMembers(codec, members) && Noise(post)
    case ArrayDoc(pre, open, items, close, post) =>
      Noise(pre) && Noise(open) && ValidItems(codec, items) && Noise(close) && Noise(post)
    case Other(pre, tag, body, post) =>
      && Noise(pre) && Noise(post) && End(tag) !in body
      && tag !in {"string", "int", "i4", "boolean", "double", "struct", "array"}
  }

  ghost predicate ValidMembers(codec: Codec, ms: Members) {
    match ms
    case NoMember(gap) => Noise(gap)
    case Member(gap, beforeName, name, afterName, val, afterVal, more) =>
      && Noise(gap) && Noise(beforeName) && Noise(name) && Noise(afterName) && Noise(afterVal)
      && ValidDoc(codec, val) && ValidMembers(codec, more)
  }

  ghost predicate ValidItems(codec: Codec, items: Items) {
    match items
    case NoItem(gap) => Noise(gap)
    case Item(gap, item, more) => Noise(gap) && ValidDoc(codec, item) && ValidItems(codec, more)
  }

  /** The value a document stands for; of two members with one name the later counts. */
  function Meaning(doc: Doc): Value {
    match doc
    case Plain(body) => Str(TextOf(body))
    case Leaf(_, _, v, _, _) => v
    case StructDoc(_, members, _) => Struct(MembersMeaning(members))
    case ArrayDoc(_, _, items, _, _) => Array(ItemsMeaning(items))
    case Other(_, _, _, _) => Nil
  }

  function MembersMeaning(ms: Members): map<string, Value> {
    match ms
    case NoMember(_) => map[]
    case Member(_, _, name, _, val, _, more) => map[TextOf(name) := Meaning(val)] + MembersMeaning(more)
  }

  function ItemsMeaning(items: Items): seq<Value> {
    match items
    case NoItem(_) => []
    case Item(_, item, more) => [Meaning(item)] + ItemsMeaning(more)
  }

  /** The tokens of a value from behind its start tag to its end tag. */
  function Body(doc: Doc): seq<Token> {
    match doc
    case Plain(body) => body + [End("value")]
    case Leaf(pre, tag, _, body, post) => pre + ([Start(tag)] + (body + ([End(tag)] + (post + [End("value")]))))
    case StructDoc(pre, members, post) =>
      pre + ([Start("struct")] + (MembersBody(members) + ([End("struct")] + (post + [End("value")]))))
    case ArrayDoc(pre, open, items, close, post) =>
      pre + ([Start("array")] + (open + ([Start("data")] + (ItemsBody(items) + ([End("data")] +
      (close + ([End("array")] + (post + [End("value")]))))))))
    case Other(pre, tag, body, post) => pre + ([Start(tag)] + (body + ([End(tag)] + (post + [End("value")]))))
  }

  function MembersBody(ms: Members): seq<Token> {
    match ms
    case NoMember(gap) => gap
    case Member(gap, beforeName, name, afterName, val, afterVal, more) =>
      gap + ([Start("member")] + (beforeName + ([Start("name")] + (name + ([End("name")] + (afterName +
      ([Start("value")] + (Body(val) + (afterVal + ([End("member")] + MembersBody(more)))))))))))
  }

  function ItemsBody(items: Items): seq<Token> {
    match items
    case NoItem(gap) => gap
    case Item(gap, item, more) => gap + ([Start("value")] + (Body(item) + ItemsBody(more)))
  }

  // ---------------------------------------------------------------------------------------------------------------
  // Noise is skipped
  // ---------------------------------------------------------------------------------------------------------------

  lemma NoiseTail(gap: seq<Token>, rest: seq<Token>)
    requires Noise(gap) && gap != []
    ensures gap[0].Text? || gap[0].Misc?
    ensures Noise(gap[1..]) && (gap + rest)[0] == gap[0] && (gap + rest)[1..] == gap[1..] + rest
  {
    assert gap[0] in gap;
  }

  lemma {:induction false} TextReads(codec: Codec, body: seq<Token>, name: string, rest: seq<Token>, text: string)
    requires Noise(body)
    ensures codec.ReadText(body + ([End(name)] + rest), text) == Ok((text + TextOf(body), rest))
    decreases |body|
  {
    if body == [] {
      assert body + ([End(name)] + rest) == [End(name)] + rest;
      assert text + TextOf(body) == text;
    } else {
      NoiseTail(body, [End(name)] + rest);
      assert text + "" == text;
      TextReads(codec, body[1..], name, rest, text + PieceOf(body[0]));
      assert text + PieceOf(body[0]) + TextOf(body[1..]) == text + TextOf(body);
    }
  }

  lemma GapTail(gap: seq<Token>, rest: seq<Token>)
    requires gap != []
    ensures gap[0] in gap && (gap + rest)[0] == gap[0] && (gap + rest)[1..] == gap[1..] + rest
    ensures forall t :: t in gap[1..] ==> t in gap
  {
  }

  /** What a value passes over: text, comments, and end tags of other names. */
  predicate NoElement(gap: seq<Token>) {
    forall t :: t in gap ==> !t.Start? && t != End("value")
  }

  lemma TextOfTail(chars: string, gap: seq<Token>)
    requires gap != []
    ensures chars + PieceOf(gap[0]) + TextOf(gap[1..]) == chars + TextOf(gap)
  {
    Joined(chars, PieceOf(gap[0]), TextOf(gap[1..]));
  }

  lemma Joined(a: string, b: string, c: string)
    ensures a + b + c == a + (b + c)
  {
  }

  lemma ValueSkipsOne(codec: Codec, toks: seq<Token>, chars: string, result: Option<Value>)
    requires toks != [] && !toks[0].Start? && toks[0] != End("value")
    ensures codec.DecodeValue(toks, chars, result)
         == codec.DecodeValue(toks[1..], if result.None? then chars + PieceOf(toks[0]) else chars, result)
  {
    assert chars + "" == chars;
  }

  lemma {:induction false} ValueSkips(codec: Codec, gap: seq<Token>, rest: seq<Token>, chars: string,
                                      result: Option<Value>)
    requires NoElement(gap)
    ensures codec.DecodeValue(gap + rest, chars, result)
         == codec.DecodeValue(rest, if result.None? then chars + TextOf(gap) else chars, result)
    decreases |gap|
  {
    if gap == [] {
      assert gap + rest == rest && chars + TextOf(gap) == chars;
    } else {
      GapTail(gap, rest);
      ValueSkipsOne(codec, gap + rest, chars, result);
      TextOfTail(chars, gap);
      ValueSkips(codec, gap[1..], rest, if result.None? then chars + PieceOf(gap[0]) else chars, result);
    }
  }

  /** A struct passes over everything but members and its end tag; */
  lemma {:induction false} StructSkips(codec: Codec, gap: seq<Token>, rest: seq<Token>, m: map<string, Value>)
    requires forall t :: t in gap ==> t !in [Start("member"), End("struct")]
    ensures codec.DecodeStruct(gap + rest, m) == codec.DecodeStruct(rest, m)
    decreases |gap|
  {
    if gap == [] {
      assert gap + rest == rest;
    } else {
      GapTail(gap, rest);
      StructSkips(codec, gap[1..], rest, m);
    }
  }

  /** a member over everything but names, values and its end tag; */
  lemma {:induction false} MemberSkips(codec: Codec, gap: seq<Token>, rest: seq<Token>, name: string, val: Value)
    requires forall t :: t in gap ==> t !in [Start("name"), Start("value"), End("member")]
    ensures codec.DecodeMember(gap + rest, name, val) == codec.DecodeMember(rest, name, val)
    decreases |gap|
  {
    if gap == [] {
      assert gap + rest == rest;
    } else {
      GapTail(gap, rest);
      MemberSkips(codec, gap[1..], rest, name, val);
    }
  }

  /** and an array over everything but values and its end tag. */
  lemma {:induction false} ArraySkips(codec: Codec, gap: seq<Token>, rest: seq<Token>, items: seq<Value>)
    requires forall t :: t in gap ==> t !in [Start("value"), End("array")]
    ensures codec.DecodeArray(gap + rest, items) == codec.DecodeArray(rest, items)
    decreases |gap|
  {
    if gap == [] {
      assert gap + rest == rest;
    } else {
      GapTail(gap, rest);
      ArraySkips(codec, gap[1..], rest, items);
    }
  }

  // ---------------------------------------------------------------------------------------------------------------
  // The round trip
  // ---------------------------------------------------------------------------------------------------------------

  lemma ScalarReads(codec: Codec, tag: string, v: Value, text: string)
    requires Spells(codec, tag, v, text)
    ensures codec.IsScalar(tag) && codec.Scalar(tag, text) == Ok(v)
  {
    match v
    case Str(_) =>
    case Bool(b) =>
      var core :| Trimmed(core) && Padded(text, core) && (b <==> core == "1");
      PaddedTrims(text, core);
    case Int(n) =>
      var core :| IsNumeral(core, n) && Padded(text, core);
      var sign, k :| SignOf(sign, n) && (n > 0 ==> sign != "-") && core == Numeral(sign, k, n);
      NumeralIsTrimmed(sign, k, n);
      PaddedTrims(text, core);
      AtoiIff(core, n);
    case Double(d) => PaddedTrims(text, d);
    case _ =>
  }

  lemma PaddedTrims(text: string, core: string)
    requires Trimmed(core) && Padded(text, core)
    ensures TrimSpace(text) == core
  {
    var a, b :| AllSpace(a) && AllSpace(b) && text == a + core + b;
    TrimsBothEnds(a, core, b);
  }

  /** skipTo takes everything up to the first end tag of the name. */
  lemma {:induction false} SkipReads(codec: Codec, body: seq<Token>, name: string, rest: seq<Token>)
    requires End(name) !in body
    ensures codec.SkipTo(body + ([End(name)] + rest), name) == Ok((Nil, rest))
    decreases |body|
  {
    if body == [] {
      assert body + ([End(name)] + rest) == [End(name)] + rest;
    } else {
      assert body == [body[0]] + body[1..];
      assert (body + ([End(name)] + rest))[1..] == body[1..] + ([End(name)] + rest);
      SkipReads(codec, body[1..], name, rest);
    }
  }

  lemma PlainBody(codec: Codec, doc: Doc, rest: seq<Token>)
    requires doc.Plain? && ValidDoc(codec, doc)
    ensures codec.DecodeValue(Body(doc) + rest, "", None) == Ok((Meaning(doc), rest))
  {
    assert Body(doc) + rest == doc.body + ([End("value")] + rest);
    ValueSkips(codec, doc.body, [End("value")] + rest, "", None);
    assert "" + TextOf(doc.body) == TextOf(doc.body);
  }

  // A value that is not plain is an element with some noise around it.

  function TagOf(doc: Doc): string
    requires !doc.Plain?
  {
    match doc
    case StructDoc(_, _, _) => "struct"
    case ArrayDoc(_, _, _, _, _) => "array"
    case Leaf(_, tag, _, _, _) => tag
    case Other(_, tag, _, _) => tag
  }

  /** The tokens of the element behind its start tag. */
  function Inner(doc: Doc): seq<Token>
    requires !doc.Plain?
  {
    match doc
    case StructDoc(_, members, _) => MembersBody(members) + [End("struct")]
    case ArrayDoc(_, open, items, close, _) =>
      (open + [Start("data")]) + (ItemsBody(items) + (([End("data")] + close) + [End("array")]))
    case Leaf(_, tag, _, body, _) => body + [End(tag)]
    case Other(_, tag, body, _) => body + [End(tag)]
  }

  /** An element with the noise in front of it and behind it. */
  function Element(doc: Doc): seq<Token>
    requires !doc.Plain?
  {
    doc.pre + ([Start(TagOf(doc))] + (Inner(doc) + doc.post))
  }

  lemma ArrayInner(doc: Doc)
    requires doc.ArrayDoc?
    ensures Body(doc) == doc.pre + ([Start("array")] + (Inner(doc) + (doc.post + [End("value")])))
  {
    var ending := [End("data")] + doc.close;
    var end := doc.post + [End("value")];
    assert [End("data")] + (doc.close + ([End("array")] + end)) == (ending + [End("array")]) + end;
    assert doc.open + ([Start("data")] + (ItemsBody(doc.items) + ((ending + [End("array")]) + end)))
        == Inner(doc) + end;
  }

  lemma BodyIsElement(doc: Doc)
    requires !doc.Plain?
    ensures Body(doc) == Element(doc) + [End("value")]
  {
    var end := doc.post + [End("value")];
    if doc.ArrayDoc? {
      ArrayInner(doc);
    } else if doc.StructDoc? {
      assert MembersBody(doc.members) + ([End("struct")] + end) == Inner(doc) + end;
    } else {
      assert doc.body + ([End(doc.tag)] + end) == Inner(doc) + end;
    }
    assert Inner(doc) + end == (Inner(doc) + doc.post) + [End("value")];
  }

  lemma LeafReads(codec: Codec, doc: Doc, tail: seq<Token>)
    requires doc.Leaf? && ValidDoc(codec, doc)
    ensures codec.DecodeElement(doc.tag, Inner(doc) + tail) == Ok((doc.leaf, tail))
  {
    assert Inner(doc) + tail == doc.body + ([End(doc.tag)] + tail);
    TextReads(codec, doc.body, doc.tag, tail, "");
    ScalarReads(codec, doc.tag, doc.leaf, TextOf(doc.body));
    assert "" + TextOf(doc.body) == TextOf(doc.body);
  }

  lemma OtherReads(codec: Codec, doc: Doc, tail: seq<Token>)
    requires doc.Other? && ValidDoc(codec, doc)
    ensures codec.DecodeElement(doc.tag, Inner(doc) + tail) == Ok((Nil, tail))
  {
    assert Inner(doc) + tail == doc.body + ([End(doc.tag)] + tail);
    SkipReads(codec, doc.body, doc.tag, tail);
  }

  lemma ArrayReads(codec: Codec, doc: Doc, tail: seq<Token>)
    requires doc.ArrayDoc? && Noise(doc.open) && Noise(doc.close)
    requires var after := ([End("data")] + doc.close) + ([End("array")] + tail);
             codec.DecodeArray(ItemsBody(doc.items) + after, []) == codec.DecodeArray(after, ItemsMeaning(doc.items))
    ensures codec.DecodeElement("array", Inner(doc) + tail) == Ok((Meaning(doc), tail))
  {
    var opening, ending := doc.open + [Start("data")], [End("data")] + doc.close;
    var after := ending + ([End("array")] + tail);
    assert Inner(doc) + tail == opening + (ItemsBody(doc.items) + after);
    ArraySkips(codec, opening, ItemsBody(doc.items) + after, []);
    ArraySkips(codec, ending, [End("array")] + tail, ItemsMeaning(doc.items));
    assert ([End("array")] + tail)[1..] == tail;
  }

  lemma StructReads(codec: Codec, doc: Doc, tail: seq<Token>)
    requires doc.StructDoc?
    requires codec.DecodeStruct(MembersBody(doc.members) + ([End("struct")] + tail), map[]) == Ok((Meaning(doc), tail))
    ensures codec.DecodeElement("struct", Inner(doc) + tail) == Ok((Meaning(doc), tail))
  {
    Regroup(MembersBody(doc.members), [End("struct")], tail);
  }

  lemma {:induction false} ElementReads(codec: Codec, doc: Doc, tail: seq<Token>)
    requires !doc.Plain? && ValidDoc(codec, doc)
    ensures codec.DecodeElement(TagOf(doc), Inner(doc) + tail) == Ok((Meaning(doc), tail))
    decreases doc, 1
  {
    match doc
    case Leaf(_, _, _, _, _) => LeafReads(codec, doc, tail);
    case Other(_, _, _, _) => OtherReads(codec, doc, tail);
    case StructDoc(_, members, _) =>
      DecodeMembers(codec, members, tail, map[]);
      assert map[] + MembersMeaning(members) == MembersMeaning(members);
      StructReads(codec, doc, tail);
    case ArrayDoc(_, _, items, close, _) =>
      DecodeItems(codec, items, ([End("data")] + close) + ([End("array")] + tail), []);
      assert [] + ItemsMeaning(items) == ItemsMeaning(items);
      ArrayReads(codec, doc, tail);
  }

  /** An element counts whatever the value held before it. */
  lemma {:induction false} ValueTakesElement(codec: Codec, doc: Doc, tail: seq<Token>, chars: string,
                                             result: Option<Value>)
    requires !doc.Plain? && ValidDoc(codec, doc)
    ensures exists chars' ::
              codec.DecodeValue(Element(doc) + tail, chars, result)
              == codec.DecodeValue(tail, chars', Some(Meaning(doc)))
    decreases doc, 2
  {
    var behind := Inner(doc) + (doc.post + tail);
    var chars' := if result.None? then chars + TextOf(doc.pre) else chars;
    ElementShape(doc, tail);
    ValueSkips(codec, doc.pre, [Start(TagOf(doc))] + behind, chars, result);
    ElementReads(codec, doc, doc.post + tail);
    ValueStarts(codec, TagOf(doc), behind, chars', result, Meaning(doc), doc.post + tail);
    ValueSkips(codec, doc.post, tail, chars', Some(Meaning(doc)));
  }

  lemma ElementShape(doc: Doc, tail: seq<Token>)
    requires !doc.Plain?
    ensures Element(doc) + tail == doc.pre + ([Start(TagOf(doc))] + (Inner(doc) + (doc.post + tail)))
  {
    Regroup(doc.pre, [Start(TagOf(doc))] + (Inner(doc) + doc.post), tail);
    Regroup([Start(TagOf(doc))], Inner(doc) + doc.post, tail);
    Regroup(Inner(doc), doc.post, tail);
  }

  lemma ValueStarts(codec: Codec, name: string, body: seq<Token>, chars: string, result: Option<Value>, v: Value,
                    rest: seq<Token>)
    requires codec.DecodeElement(name, body) == Ok((v, rest))
    ensures codec.DecodeValue([Start(name)] + body, chars, result) == codec.DecodeValue(rest, chars, Some(v))
  {
    assert ([Start(name)] + body)[1..] == body;
  }

  /** Decoding any way of writing a value gives that value and leaves exactly the tokens behind it. */
  lemma {:induction false} DecodeBody(codec: Codec, doc: Doc, rest: seq<Token>)
    requires ValidDoc(codec, doc)
    ensures codec.DecodeValue(Body(doc) + rest, "", None) == Ok((Meaning(doc), rest))
    decreases doc, 3
  {
    if doc.Plain? {
      PlainBody(codec, doc, rest);
    } else {
      ValueTakesElement(codec, doc, [End("value")] + rest, "", None);
      ElementEndsValue(codec, doc, rest, "", None);
    }
  }

  lemma ElementEndsValue(codec: Codec, doc: Doc, rest: seq<Token>, chars: string, result: Option<Value>)
    requires !doc.Plain?
    requires exists chars' ::
               codec.DecodeValue(Element(doc) + ([End("value")] + rest), chars, result)
               == codec.DecodeValue([End("value")] + rest, chars', Some(Meaning(doc)))
    ensures codec.DecodeValue(Body(doc) + rest, chars, result) == Ok((Meaning(doc), rest))
  {
    var end := [End("value")] + rest;
    var chars' :| codec.DecodeValue(Element(doc) + end, chars, result)
               == codec.DecodeValue(end, chars', Some(Meaning(doc)));
    assert end[0] == End("value") && end[1..] == rest;
    BodyIsElement(doc);
    Regroup(Element(doc), [End("value")], rest);
  }

  lemma Regroup(a: seq<Token>, b: seq<Token>, c: seq<Token>)
    ensures (a + b) + c == a + (b + c)
  {
  }

  /** Of two elements in one value the later counts, whatever the earlier was. */
  lemma LaterElementCounts(codec: Codec, earlier: Doc, doc: Doc, rest: seq<Token>)
    requires !earlier.Plain? && !doc.Plain? && ValidDoc(codec, earlier) && ValidDoc(codec, doc)
    ensures codec.DecodeValue(Element(earlier) + (Body(doc) + rest), "", None) == Ok((Meaning(doc), rest))
  {
    ValueTakesElement(codec, earlier, Body(doc) + rest, "", None);
    var chars :| codec.DecodeValue(Element(earlier) + (Body(doc) + rest), "", None)
              == codec.DecodeValue(Body(doc) + rest, chars, Some(Meaning(earlier)));
    ValueTakesElement(codec, doc, [End("value")] + rest, chars, Some(Meaning(earlier)));
    ElementEndsValue(codec, doc, rest, chars, Some(Meaning(earlier)));
  }

  /** A value whose element should be a number, and whose text spells none, is refused. */
  lemma BadNumberIsRefused(codec: Codec, pre: seq<Token>, tag: string, body: seq<Token>, rest: seq<Token>)
    requires Noise(pre) && Noise(body) && (tag == "int" || tag == "i4" || tag == "double")
    requires forall v :: !Spells(codec, tag, v, TextOf(body))
    ensures codec.DecodeValue(pre + ([Start(tag)] + (body + ([End(tag)] + rest))), "", None) == Err(BadNumber)
  {
    var behind := body + ([End(tag)] + rest);
    ValueSkips(codec, pre, [Start(tag)] + behind, "", None);
    assert ([Start(tag)] + behind)[1..] == behind;
    TextReads(codec, body, tag, rest, "");
    assert "" + TextOf(body) == TextOf(body);
    NoNumber(codec, tag, TextOf(body));
  }

  lemma NoNumber(codec: Codec, tag: string, text: string)
    requires tag == "int" || tag == "i4" || tag == "double"
    requires forall v :: !Spells(codec, tag, v, text)
    ensures codec.Scalar(tag, text) == Err(BadNumber)
  {
    var core := TrimSpace(text);
    var a, b := TrimSplits(text);
    assert Padded(text, core);
    var r := Atoi(core);
    if r.Some? {
      AtoiIff(core, r.value);
    }
    assert !Spells(codec, tag, Double(core), text);
    assert r.Some? ==> !Spells(codec, tag, Int(r.value), text);
  }

  lemma {:induction false} DecodeMembers(codec: Codec, ms: Members, rest: seq<Token>, m: map<string, Value>)
    requires ValidMembers(codec, ms)
    ensures codec.DecodeStruct(MembersBody(ms) + ([End("struct")] + rest), m)
              == Ok((Struct(m + MembersMeaning(ms)), rest))
    decreases ms, 1
  {
    match ms
    case NoMember(gap) =>
      StructSkips(codec, gap, [End("struct")] + rest, m);
      assert m + MembersMeaning(ms) == m;
    case Member(gap, _, name, _, val, _, more) =>
      var tail := MembersBody(more) + ([End("struct")] + rest);
      DecodeOneMember(codec, ms, tail);
      StructTakesMember(codec, ms, tail, m);
      DecodeMembers(codec, more, rest, m[TextOf(name) := Meaning(val)]);
      MembersMeaningStep(ms, m);
      MembersSplit(ms, [End("struct")] + rest);
  }

  lemma MembersMeaningStep(ms: Members, m: map<string, Value>)
    requires ms.Member?
    ensures m[TextOf(ms.name) := Meaning(ms.val)] + MembersMeaning(ms.more) == m + MembersMeaning(ms)
  {
  }

  lemma MembersSplit(ms: Members, rest: seq<Token>)
    requires ms.Member?
    ensures MembersBody(ms) + rest == ms.gap + ([Start("member")] + (MemberBody(ms) + (MembersBody(ms.more) + rest)))
  {
  }

  lemma StructTakesMember(codec: Codec, ms: Members, tail: seq<Token>, m: map<string, Value>)
    requires ms.Member? && Noise(ms.gap)
    requires codec.DecodeMember(MemberBody(ms) + tail, "", Nil) == Ok(((TextOf(ms.name), Meaning(ms.val)), tail))
    ensures codec.DecodeStruct(ms.gap + ([Start("member")] + (MemberBody(ms) + tail)), m)
         == codec.DecodeStruct(tail, m[TextOf(ms.name) := Meaning(ms.val)])
  {
    var body := MemberBody(ms) + tail;
    StructSkips(codec, ms.gap, [Start("member")] + body, m);
    assert ([Start("member")] + body)[1..] == body;
  }

  function MemberBody(ms: Members): seq<Token>
    requires ms.Member?
  {
    ms.beforeName + ([Start("name")] + (ms.name + ([End("name")] + (ms.afterName + ([Start("value")] + (Body(ms.val) +
    (ms.afterVal + [End("member")])))))))
  }

  /** The parts of a member count wherever they stand in it, and of several names or values the last: a name counts
      whatever name and value there were before, */
  lemma MemberTakesName(codec: Codec, gap: seq<Token>, name: seq<Token>, rest: seq<Token>, name0: string, val0: Value)
    requires Noise(gap) && Noise(name)
    ensures codec.DecodeMember(gap + ([Start("name")] + (name + ([End("name")] + rest))), name0, val0)
         == codec.DecodeMember(rest, TextOf(name), val0)
  {
    var tail := name + ([End("name")] + rest);
    MemberSkips(codec, gap, [Start("name")] + tail, name0, val0);
    assert ([Start("name")] + tail)[1..] == tail;
    TextReads(codec, name, "name", rest, "");
    assert "" + TextOf(name) == TextOf(name);
  }

  /** and so does a value, */
  lemma {:induction false} MemberTakesValue(codec: Codec, gap: seq<Token>, doc: Doc, rest: seq<Token>, name0: string,
                                            val0: Value)
    requires Noise(gap) && ValidDoc(codec, doc)
    ensures codec.DecodeMember(gap + ([Start("value")] + (Body(doc) + rest)), name0, val0)
         == codec.DecodeMember(rest, name0, Meaning(doc))
    decreases doc, 4
  {
    var tail := Body(doc) + rest;
    MemberSkips(codec, gap, [Start("value")] + tail, name0, val0);
    assert ([Start("value")] + tail)[1..] == tail;
    DecodeBody(codec, doc, rest);
  }

  /** until the member ends. */
  lemma MemberEnds(codec: Codec, gap: seq<Token>, rest: seq<Token>, name: string, val: Value)
    requires Noise(gap)
    ensures codec.DecodeMember(gap + ([End("member")] + rest), name, val) == Ok(((name, val), rest))
  {
    MemberSkips(codec, gap, [End("member")] + rest, name, val);
    assert ([End("member")] + rest)[1..] == rest;
  }

  lemma {:induction false} DecodeOneMember(codec: Codec, ms: Members, rest: seq<Token>)
    requires ms.Member? && ValidMembers(codec, ms)
    ensures codec.DecodeMember(MemberBody(ms) + rest, "", Nil) == Ok(((TextOf(ms.name), Meaning(ms.val)), rest))
    decreases ms, 0
  {
    var tail := ms.afterVal + ([End("member")] + rest);
    var second := ms.afterName + ([Start("value")] + (Body(ms.val) + tail));
    assert MemberBody(ms) + rest == ms.beforeName + ([Start("name")] + (ms.name + ([End("name")] + second)));
    MemberTakesName(codec, ms.beforeName, ms.name, second, "", Nil);
    MemberTakesValue(codec, ms.afterName, ms.val, tail, TextOf(ms.name), Nil);
    MemberEnds(codec, ms.afterVal, rest, TextOf(ms.name), Meaning(ms.val));
  }

  lemma {:induction false} DecodeItems(codec: Codec, items: Items, rest: seq<Token>, done: seq<Value>)
    requires ValidItems(codec, items)
    ensures codec.DecodeArray(ItemsBody(items) + rest, done) == codec.DecodeArray(rest, done + ItemsMeaning(items))
    decreases items, 1
  {
    match items
    case NoItem(gap) =>
      ArraySkips(codec, gap, rest, done);
      assert done + ItemsMeaning(items) == done;
    case Item(gap, item, more) =>
      var tail := ItemsBody(more) + rest;
      assert ItemsBody(items) + rest == gap + ([Start("value")] + (Body(item) + tail));
      ArraySkips(codec, gap, [Start("value")] + (Body(item) + tail), done);
      assert ([Start("value")] + (Body(item) + tail))[1..] == Body(item) + tail;
      DecodeBody(codec, item, tail);
      DecodeItems(codec, more, rest, done + [Meaning(item)]);
      assert done + [Meaning(item)] + ItemsMeaning(more) == done + ItemsMeaning(items);
  }

  // ---------------------------------------------------------------------------------------------------------------
  // Responses
  // ---------------------------------------------------------------------------------------------------------------

  datatype Response = Return(v: Value) | Fault(code: int, message: string) | Failed(error: Failure)

  function FaultOf(v: Value): Response {
    var m := if v.Struct? then v.members else map[];
    Fault(if "faultCode" in m && m["faultCode"].Int? then m["faultCode"].n else 0,
          if "faultString" in m && m["faultString"].Str? then m["faultString"].s else "")
  }

  /** decodeResponse: the first value counts; it is a fault if a fault tag came before it. */
  function DecodeResponse(codec: Codec, toks: seq<Token>, fault: bool): Response
    decreases |toks|
  {
    if toks == [] then Failed(EndOfInput)
    else if toks[0] == Start("fault") then DecodeResponse(codec, toks[1..], true)
    else if toks[0] == Start("value") then
      var e := codec.DecodeValue(toks[1..], "", None);
      if e.Err? then Failed(e.error) else if fault then FaultOf(e.value.0) else Return(e.value.0)
    else DecodeResponse(codec, toks[1..], fault)
  }

  predicate Before(toks: seq<Token>) {
    forall t :: t in toks ==> t != Start("value") && t != Start("fault")
  }

  lemma {:induction false} ResponseSkips(codec: Codec, before: seq<Token>, rest: seq<Token>, fault: bool)
    requires Before(before)
    ensures DecodeResponse(codec, before + rest, fault) == DecodeResponse(codec, rest, fault)
    decreases |before|
  {
    if before == [] {
      assert before + rest == rest;
    } else {
      assert before[0] in before && (before + rest)[1..] == before[1..] + rest;
      forall t | t in before[1..]
        ensures t != Start("value") && t != Start("fault")
      {
        assert t in before;
      }
      ResponseSkips(codec, before[1..], rest, fault);
    }
  }

  /** A response that carries a value returns that value, however it is written and whatever surrounds it. */
  lemma ResponseReturns(codec: Codec, before: seq<Token>, doc: Doc, rest: seq<Token>)
    requires Before(before) && ValidDoc(codec, doc)
    ensures DecodeResponse(codec, before + ([Start("value")] + (Body(doc) + rest)), false) == Return(Meaning(doc))
  {
    var tail := Body(doc) + rest;
    ResponseSkips(codec, before, [Start("value")] + tail, false);
    assert ([Start("value")] + tail)[1..] == tail;
    DecodeBody(codec, doc, rest);
  }

  /** A fault response is reported with its own code and message; one that is missing or of another type is 0 or
      empty. */
  lemma FaultReturns(codec: Codec, before: seq<Token>, between: seq<Token>, doc: Doc, rest: seq<Token>,
                     code: Int64, message: string)
    requires Before(before) && Before(between) && ValidDoc(codec, doc)
    requires var m := if Meaning(doc).Struct? then Meaning(doc).members else map[];
             && (if "faultCode" in m && m["faultCode"].Int? then m["faultCode"] == Int(code) else code == 0)
             && (if "faultString" in m && m["faultString"].Str? then m["faultString"] == Str(message)
                 else message == "")
    ensures var fault := between + ([Start("value")] + (Body(doc) + rest));
            DecodeResponse(codec, before + ([Start("fault")] + fault), false) == Fault(code, message)
  {
    var tail := Body(doc) + rest;
    var inner := between + ([Start("value")] + tail);
    ResponseSkips(codec, before, [Start("fault")] + inner, false);
    assert ([Start("fault")] + inner)[1..] == inner;
    ResponseSkips(codec, between, [Start("value")] + tail, true);
    assert ([Start("value")] + tail)[1..] == tail;
    DecodeBody(codec, doc, rest);
  }
}
