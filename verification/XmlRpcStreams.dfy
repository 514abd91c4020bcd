/** The codec as it runs: decoders that consume a mutable token stream, and an encoder that appends to a builder. */
module XmlRpcStreams {
  import opened Common
  import opened GoText
  import opened XmlRpc

  // ---------------------------------------------------------------------------------------------------------------
  // Decoding
  // ---------------------------------------------------------------------------------------------------------------

  class TokenReader {
    const toks: seq<Token>
    var pos: nat

    ghost predicate Valid()
      reads this
    {
      pos <= |toks|
    }

    function Left(): seq<Token>
      reads this
      requires Valid()
    {
      toks[pos..]
    }

    constructor (toks: seq<Token>)
      ensures Valid() && Left() == toks
    {
      this.toks := toks;
      pos := 0;
    }

    method Token() returns (tok: Option<Token>)
      requires Valid()
      modifies this
      ensures Valid()
      ensures old(Left()) == [] ==> tok.None? && Left() == []
      ensures old(Left()) != [] ==> tok == Some(old(Left())[0]) && Left() == old(Left())[1..] && pos == old(pos) + 1
    {
      if pos < |toks| {
        tok := Some(toks[pos]);
        pos := pos + 1;
      } else {
        tok := None;
      }
    }
  }

  /** A decoder method returned what the decoder function says, and left the stream where it says. */
  ghost predicate Agrees<T>(spec: Decoded<T>, r: Result<T, Failure>, left: seq<Token>) {
    match spec
    case Ok(pair) => r == Ok(pair.0) && left == pair.1
    case Err(e) => r == Err(e)
  }

  method ReadText(codec: Codec, dec: TokenReader) returns (r: Result<string, Failure>)
    requires dec.Valid()
    modifies dec
    ensures dec.Valid() && dec.pos >= old(dec.pos) && Agrees(codec.ReadText(old(dec.Left()), ""), r, dec.Left())
  {
    var sb := "";
    while true
      invariant dec.Valid() && dec.pos >= old(dec.pos)
      invariant codec.ReadText(dec.Left(), sb) == codec.ReadText(old(dec.Left()), "")
      decreases |dec.toks| - dec.pos
    {
      var tok := dec.Token();
      if tok.None? {
        return Err(EndOfInput);
      }
      match tok.value
      case Text(t) => sb := sb + t;
      case End(_) => return Ok(sb);
      case _ =>
    }
  }

  method SkipTo(codec: Codec, dec: TokenReader, name: string) returns (r: Result<Value, Failure>)
    requires dec.Valid()
    modifies dec
    ensures dec.Valid() && dec.pos >= old(dec.pos) && Agrees(codec.SkipTo(old(dec.Left()), name), r, dec.Left())
  {
    while true
      invariant dec.Valid() && dec.pos >= old(dec.pos)
      invariant codec.SkipTo(dec.Left(), name) == codec.SkipTo(old(dec.Left()), name)
      decreases |dec.toks| - dec.pos
    {
      var tok := dec.Token();
      if tok.None? {
        return Err(EndOfInput);
      }
      if tok.value == End(name) {
        return Ok(Nil);
      }
    }
  }

  method DecodeElement(codec: Codec, dec: TokenReader, name: string) returns (r: Result<Value, Failure>)
    requires dec.Valid()
    modifies dec
    ensures dec.Valid() && dec.pos >= old(dec.pos) && Agrees(codec.DecodeElement(name, old(dec.Left())), r, dec.Left())
    decreases |dec.toks| - dec.pos, 1
  {
    if codec.IsScalar(name) {
      var t := ReadText(codec, dec);
      r := if t.Err? then Err(t.error) else codec.Scalar(name, t.value);
    } else if name == "struct" {
      r := DecodeStruct(codec, dec);
    } else if name == "array" {
      r := DecodeArray(codec, dec);
    } else {
      r := SkipTo(codec, dec, name);
    }
  }

  method DecodeValue(codec: Codec, dec: TokenReader) returns (r: Result<Value, Failure>)
    requires dec.Valid()
    modifies dec
    ensures dec.Valid() && dec.pos >= old(dec.pos)
              && Agrees(codec.DecodeValue(old(dec.Left()), "", None), r, dec.Left())
    decreases |dec.toks| - dec.pos, 0
  {
    var chars := "";
    var result: Option<Value> := None;
    while true
      invariant dec.Valid() && dec.pos >= old(dec.pos)
      invariant codec.DecodeValue(dec.Left(), chars, result) == codec.DecodeValue(old(dec.Left()), "", None)
      decreases |dec.toks| - dec.pos
    {
      var tok := dec.Token();
      if tok.None? {
        return Err(EndOfInput);
      }
      match tok.value
      case Text(t) =>
        if result.None? {
          chars := chars + t;
        }
      case Misc =>
      case Start(name) =>
        var v := DecodeElement(codec, dec, name);
        if v.Err? {
          return v;
        }
        result := Some(v.value);
      case End(name) =>
        if name == "value" {
          return Ok(if result.Some? then result.value else Str(chars));
        }
    }
  }

  method DecodeStruct(codec: Codec, dec: TokenReader) returns (r: Result<Value, Failure>)
    requires dec.Valid()
    modifies dec
    ensures dec.Valid() && dec.pos >= old(dec.pos) && Agrees(codec.DecodeStruct(old(dec.Left()), map[]), r, dec.Left())
    decreases |dec.toks| - dec.pos, 0
  {
    var m: map<string, Value> := map[];
    while true
      invariant dec.Valid() && dec.pos >= old(dec.pos)
      invariant codec.DecodeStruct(dec.Left(), m) == codec.DecodeStruct(old(dec.Left()), map[])
      decreases |dec.toks| - dec.pos
    {
      var tok := dec.Token();
      if tok.None? {
        return Err(EndOfInput);
      }
      if tok.value == Start("member") {
        var e := DecodeMember(codec, dec);
        if e.Err? {
          return Err(e.error);
        }
        m := m[e.value.0 := e.value.1];
      } else if tok.value == End("struct") {
        return Ok(Struct(m));
      }
    }
  }

  method DecodeMember(codec: Codec, dec: TokenReader) returns (r: Result<(string, Value), Failure>)
    requires dec.Valid()
    modifies dec
    ensures dec.Valid() && dec.pos >= old(dec.pos)
              && Agrees(codec.DecodeMember(old(dec.Left()), "", Nil), r, dec.Left())
    decreases |dec.toks| - dec.pos, 0
  {
    var name, val := "", Nil;
    while true
      invariant dec.Valid() && dec.pos >= old(dec.pos)
      invariant codec.DecodeMember(dec.Left(), name, val) == codec.DecodeMember(old(dec.Left()), "", Nil)
      decreases |dec.toks| - dec.pos
    {
      var tok := dec.Token();
      if tok.None? {
        return Err(EndOfInput);
      }
      if tok.value == Start("name") {
        var t := ReadText(codec, dec);
        if t.Err? {
          return Err(t.error);
        }
        name := t.value;
      } else if tok.value == Start("value") {
        var v := DecodeValue(codec, dec);
        if v.Err? {
          return Err(v.error);
        }
        val := v.value;
      } else if tok.value == End("member") {
        return Ok((name, val));
      }
    }
  }

  method DecodeArray(codec: Codec, dec: TokenReader) returns (r: Result<Value, Failure>)
    requires dec.Valid()
    modifies dec
    ensures dec.Valid() && dec.pos >= old(dec.pos) && Agrees(codec.DecodeArray(old(dec.Left()), []), r, dec.Left())
    decreases |dec.toks| - dec.pos, 0
  {
    var items: seq<Value> := [];
    while true
      invariant dec.Valid() && dec.pos >= old(dec.pos)
      invariant codec.DecodeArray(dec.Left(), items) == codec.DecodeArray(old(dec.Left()), [])
      decreases |dec.toks| - dec.pos
    {
      var tok := dec.Token();
      if tok.None? {
        return Err(EndOfInput);
      }
      if tok.value == Start("value") {
        var v := DecodeValue(codec, dec);
        if v.Err? {
          return v;
        }
        items := items + [v.value];
      } else if tok.value == End("array") {
        return Ok(Array(items));
      }
    }
  }

  method DecodeResponseStream(codec: Codec, toks: seq<Token>) returns (r: Response)
    ensures r == DecodeResponse(codec, toks, false)
  {
    var dec := new TokenReader(toks);
    var fault := false;
    while true
      invariant dec.Valid()
      invariant DecodeResponse(codec, dec.Left(), fault) == DecodeResponse(codec, toks, false)
      decreases |dec.toks| - dec.pos
    {
      var tok := dec.Token();
      if tok.None? {
        return Failed(EndOfInput);
      }
      if tok.value == Start("fault") {
        fault := true;
      } else if tok.value == Start("value") {
        var v := DecodeValue(codec, dec);
        if v.Err? {
          return Failed(v.error);
        }
        return if fault then FaultOf(v.value) else Return(v.value);
      }
    }
  }

  // ---------------------------------------------------------------------------------------------------------------
  // Encoding
  // ---------------------------------------------------------------------------------------------------------------

  /** The values the encoder supports: everything but a nil, at any depth. */
  predicate Encodable(v: Value) {
    match v
    case Nil => false
    case Struct(m) => forall k :: k in m ==> Encodable(m[k])
    case Array(items) => forall x :: x in items ==> Encodable(x)
    case _ => true
  }

  /** Every float inside the value is given by a text ParseFloat accepts as it stands. */
  predicate FloatsPrint(codec: Codec, v: Value) {
    match v
    case Double(text) => codec.validFloat(text) && Trimmed(text)
    case Struct(m) => forall k :: k in m ==> FloatsPrint(codec, m[k])
    case Array(items) => forall x :: x in items ==> FloatsPrint(codec, x)
    case _ => true
  }

  /** A text as the tokeniser delivers it: no token at all when it is empty. */
  function TextTokens(s: string): (toks: seq<Token>)
    ensures Noise(toks) && TextOf(toks) == s
  {
    if s == "" then [] else
      assert TextOf([Text(s)]) == s + TextOf([]);
      [Text(s)]
  }

  function LeafDoc(tag: string, v: Value, text: string): Doc {
    Leaf([], tag, v, TextTokens(text), [])
  }

  lemma LeafTokens(tag: string, v: Value, text: string)
    ensures [Start("value")] + Body(LeafDoc(tag, v, text))
         == [Start("value"), Start(tag)] + TextTokens(text) + [End(tag), End("value")]
  {
  }

  lemma AsItStands(text: string)
    ensures Padded(text, text)
  {
    assert AllSpace("") && text == "" + text + "";
  }

  lemma NumberIsNumeral(n: Int64)
    ensures IsNumeral(FormatInt(n), n)
  {
    var m: int := n;
    if m < 0 {
      assert FormatInt(m) == Numeral("-", 0, m);
    } else {
      assert FormatInt(m) == Numeral("", 0, m);
    }
  }

  function MembersOf(ps: seq<(string, Doc)>): Members {
    if ps == [] then NoMember([])
    else Member([], [], TextTokens(ps[0].0), [], ps[0].1, [], MembersOf(ps[1..]))
  }

  /** The tokens of one member as the encoder writes it. */
  function MemberTokens(p: (string, Doc)): seq<Token> {
    [Start("member")] + MemberBody(MembersOf([p]))
  }

  lemma NothingAround(toks: seq<Token>)
    ensures [] + toks == toks && toks + [] == toks
  {
  }

  lemma SameMember(ps: seq<(string, Doc)>)
    requires ps != []
    ensures MemberBody(MembersOf(ps)) == MemberBody(MembersOf([ps[0]]))
  {
  }

  lemma MembersHead(ps: seq<(string, Doc)>)
    requires ps != []
    ensures MembersBody(MembersOf(ps)) == MemberTokens(ps[0]) + MembersBody(MembersOf(ps[1..]))
  {
    var ms, more := MembersOf(ps), MembersBody(MembersOf(ps[1..]));
    MembersSplit(ms, []);
    SameMember(ps);
    NothingAround(MembersBody(ms));
    NothingAround(more);
    NothingAround([Start("member")] + (MemberBody(ms) + more));
    Associative([Start("member")], MemberBody(ms), more);
  }

  lemma MemberTokensShape(k: string, doc: Doc)
    ensures MemberTokens((k, doc)) == [Start("member")] + ([Start("name")] + (TextTokens(k) + ([End("name")] +
            ([Start("value")] + (Body(doc) + [End("member")])))))
  {
    var val := Body(doc) + [End("member")];
    assert [] + [End("member")] == [End("member")];
    assert [] + ([Start("value")] + val) == [Start("value")] + val;
    var inner := [Start("name")] + (TextTokens(k) + ([End("name")] + ([Start("value")] + val)));
    assert [] + inner == inner;
  }

  lemma WrittenMember(k: string, doc: Doc, before: seq<Token>)
    ensures before + ([Start("member"), Start("name")] + TextTokens(k) + [End("name")]) + ([Start("value")] + Body(doc))
            + [End("member")] == before + MemberTokens((k, doc))
  {
    MemberTokensShape(k, doc);
    var lead := [Start("member"), Start("name")] + TextTokens(k) + [End("name")];
    var val := [Start("value")] + (Body(doc) + [End("member")]);
    assert MemberTokens((k, doc)) == lead + val;
  }

  lemma Associative(a: seq<Token>, b: seq<Token>, c: seq<Token>)
    ensures a + (b + c) == (a + b) + c
  {
  }

  lemma {:induction false} AppendMemberTokens(ps: seq<(string, Doc)>, p: (string, Doc))
    ensures MembersBody(MembersOf(ps + [p])) == MembersBody(MembersOf(ps)) + MemberTokens(p)
    decreases |ps|
  {
    MembersHead(ps + [p]);
    if ps == [] {
      assert (ps + [p])[1..] == [];
    } else {
      assert (ps + [p])[1..] == ps[1..] + [p];
      AppendMemberTokens(ps[1..], p);
      MembersHead(ps);
      Associative(MemberTokens(ps[0]), MembersBody(MembersOf(ps[1..])), MemberTokens(p));
    }
  }

  lemma UpdateBehind(a: map<string, Value>, b: map<string, Value>, k: string, v: Value)
    ensures a + b[k := v] == (a + b)[k := v]
  {
  }

  lemma MeaningHead(ps: seq<(string, Doc)>)
    requires ps != []
    ensures MembersMeaning(MembersOf(ps)) == map[ps[0].0 := Meaning(ps[0].1)] + MembersMeaning(MembersOf(ps[1..]))
  {
  }

  lemma {:induction false} AppendMemberMeaning(ps: seq<(string, Doc)>, p: (string, Doc))
    ensures MembersMeaning(MembersOf(ps + [p])) == MembersMeaning(MembersOf(ps))[p.0 := Meaning(p.1)]
    decreases |ps|
  {
    MeaningHead(ps + [p]);
    if ps == [] {
      assert (ps + [p])[1..] == [];
    } else {
      assert (ps + [p])[1..] == ps[1..] + [p];
      AppendMemberMeaning(ps[1..], p);
      MeaningHead(ps);
      UpdateBehind(map[ps[0].0 := Meaning(ps[0].1)], MembersMeaning(MembersOf(ps[1..])), p.0, Meaning(p.1));
    }
  }

  lemma {:induction false} AppendMemberValid(codec: Codec, ps: seq<(string, Doc)>, p: (string, Doc))
    requires ValidMembers(codec, MembersOf(ps)) && ValidDoc(codec, p.1)
    ensures ValidMembers(codec, MembersOf(ps + [p]))
    decreases |ps|
  {
    if ps == [] {
      assert (ps + [p])[1..] == [];
    } else {
      assert (ps + [p])[1..] == ps[1..] + [p];
      AppendMemberValid(codec, ps[1..], p);
    }
  }

  function ItemsOf(ds: seq<Doc>): Items {
    if ds == [] then NoItem([]) else Item([], ds[0], ItemsOf(ds[1..]))
  }

  lemma {:induction false} AppendItem(codec: Codec, ds: seq<Doc>, d: Doc)
    ensures ItemsBody(ItemsOf(ds + [d])) == ItemsBody(ItemsOf(ds)) + ([Start("value")] + Body(d))
    ensures ItemsMeaning(ItemsOf(ds + [d])) == ItemsMeaning(ItemsOf(ds)) + [Meaning(d)]
    ensures ValidItems(codec, ItemsOf(ds)) && ValidDoc(codec, d) ==> ValidItems(codec, ItemsOf(ds + [d]))
    decreases |ds|
  {
    if ds == [] {
      assert ds + [d] == [d] && [d][1..] == [];
    } else {
      assert (ds + [d])[1..] == ds[1..] + [d];
      AppendItem(codec, ds[1..], d);
    }
  }

  class Builder {
    var toks: seq<Token>

    constructor ()
      ensures toks == []
    {
      toks := [];
    }

    method Write(more: seq<Token>)
      modifies this
      ensures toks == old(toks) + more
    {
      toks := toks + more;
    }
  }

  /** Appends one value. Map members come in whatever order the map yields them. */
  method EncodeValue(b: Builder, v: Value, ghost codec: Codec) returns (ok: bool, ghost doc: Doc)
    requires FloatsPrint(codec, v)
    modifies b
    ensures ok == Encodable(v)
    ensures ok ==> ValidDoc(codec, doc) && Meaning(doc) == v
    ensures ok ==> b.toks == old(b.toks) + ([Start("value")] + Body(doc))
    decreases v, 3
  {
    match v
    case Str(s) =>
      ok, doc := EncodeLeaf(b, codec, "string", v, s);
    case Bool(flag) =>
      AsItStands(if flag then "1" else "0");
      assert Trimmed("0") && Trimmed("1");
      ok, doc := EncodeLeaf(b, codec, "boolean", v, if flag then "1" else "0");
    case Int(n) =>
      NumberIsNumeral(n);
      AsItStands(FormatInt(n));
      ok, doc := EncodeLeaf(b, codec, "int", v, FormatInt(n));
    case Double(text) =>
      AsItStands(text);
      ok, doc := EncodeLeaf(b, codec, "double", v, text);
    case Struct(m) =>
      ok, doc := EncodeStruct(b, v, codec);
    case Array(items) =>
      ok, doc := EncodeArray(b, v, codec);
    case Nil =>
      b.Write([Start("value"), End("value")]);
      ok, doc := false, Plain([]);
  }

  method EncodeLeaf(b: Builder, ghost codec: Codec, tag: string, v: Value, text: string)
    returns (ok: bool, ghost doc: Doc)
    requires Spells(codec, tag, v, text)
    modifies b
    ensures ok && ValidDoc(codec, doc) && Meaning(doc) == v
    ensures b.toks == old(b.toks) + ([Start("value")] + Body(doc))
  {
    doc := LeafDoc(tag, v, text);
    LeafTokens(tag, v, text);
    b.Write([Start("value"), Start(tag)] + TextTokens(text) + [End(tag), End("value")]);
    ok := true;
  }

  /** A struct document is well formed and stands for `v` once its members are and do. */
  lemma StructTokens(codec: Codec, ms: Members, before: seq<Token>)
    requires ValidMembers(codec, ms)
    ensures var doc := StructDoc([], ms, []);
            && ValidDoc(codec, doc) && Meaning(doc) == Struct(MembersMeaning(ms))
            && before + [Start("value"), Start("struct")] + MembersBody(ms) + [End("struct"), End("value")]
            == before + ([Start("value")] + Body(doc))
  {
    var ending := [End("struct"), End("value")];
    assert [End("struct")] + ([] + [End("value")]) == ending;
    var body := [Start("struct")] + (MembersBody(ms) + ending);
    assert Body(StructDoc([], ms, [])) == body;
    RegroupStruct(before, MembersBody(ms), ending);
  }

  lemma RegroupStruct(before: seq<Token>, members: seq<Token>, ending: seq<Token>)
    ensures before + [Start("value"), Start("struct")] + members + ending
         == before + ([Start("value")] + ([Start("struct")] + (members + ending)))
  {
    assert [Start("value"), Start("struct")] == [Start("value")] + [Start("struct")];
  }

  lemma ArrayTokens(codec: Codec, items: Items, before: seq<Token>)
    requires ValidItems(codec, items)
    ensures var doc := ArrayDoc([], [], items, [], []);
            && ValidDoc(codec, doc) && Meaning(doc) == Array(ItemsMeaning(items))
            && before + [Start("value"), Start("array"), Start("data")] + ItemsBody(items)
               + [End("data"), End("array"), End("value")]
            == before + ([Start("value")] + Body(doc))
  {
    var ending := [End("data"), End("array"), End("value")];
    assert [End("data")] + ([] + ([End("array")] + ([] + [End("value")]))) == ending;
    var body := [Start("array"), Start("data")] + (ItemsBody(items) + ending);
    assert Body(ArrayDoc([], [], items, [], [])) == body;
    assert before + [Start("value"), Start("array"), Start("data")] + ItemsBody(items) + ending
        == before + ([Start("value")] + body);
  }

  method EncodeMember(b: Builder, k: string, v: Value, ghost codec: Codec) returns (ok: bool, ghost doc: Doc)
    requires FloatsPrint(codec, v)
    modifies b
    ensures ok == Encodable(v)
    ensures ok ==> ValidDoc(codec, doc) && Meaning(doc) == v && b.toks == old(b.toks) + MemberTokens((k, doc))
    decreases v, 4
  {
    b.Write([Start("member"), Start("name")] + TextTokens(k) + [End("name")]);
    ok, doc := EncodeValue(b, v, codec);
    if ok {
      WrittenMember(k, doc, old(b.toks));
      b.Write([End("member")]);
    }
  }

  /** The members of `m` that are no longer to do. */
  ghost function Taken(m: map<string, Value>, todo: set<string>): map<string, Value> {
    map k | k in m && k !in todo :: m[k]
  }

  /** `ps` writes down exactly the members already taken. */
  ghost predicate Writes(codec: Codec, ps: seq<(string, Doc)>, m: map<string, Value>, todo: set<string>) {
    && todo <= m.Keys
    && ValidMembers(codec, MembersOf(ps))
    && MembersMeaning(MembersOf(ps)) == Taken(m, todo)
  }

  lemma WritesOneMore(codec: Codec, ps: seq<(string, Doc)>, m: map<string, Value>, todo: set<string>, k: string, d: Doc)
    requires Writes(codec, ps, m, todo) && k in todo && ValidDoc(codec, d) && Meaning(d) == m[k]
    ensures Writes(codec, ps + [(k, d)], m, todo - {k})
  {
    AppendMemberMeaning(ps, (k, d));
    AppendMemberValid(codec, ps, (k, d));
    assert Taken(m, todo - {k}) == Taken(m, todo)[k := m[k]];
  }

  /** `written` is what the encoder appends for `ps`, which writes down exactly the members already taken. */
  ghost predicate Written(codec: Codec, ps: seq<(string, Doc)>, m: map<string, Value>, todo: set<string>,
                          written: seq<Token>) {
    Writes(codec, ps, m, todo) && written == MembersBody(MembersOf(ps))
  }

  lemma WrittenNone(codec: Codec, m: map<string, Value>)
    ensures Written(codec, [], m, m.Keys, [])
  {
    assert Taken(m, m.Keys) == map[];
  }

  lemma WrittenOneMore(codec: Codec, ps: seq<(string, Doc)>, m: map<string, Value>, todo: set<string>,
                       written: seq<Token>, k: string, d: Doc)
    requires Written(codec, ps, m, todo, written) && k in todo && ValidDoc(codec, d) && Meaning(d) == m[k]
    ensures Written(codec, ps + [(k, d)], m, todo - {k}, written + MemberTokens((k, d)))
  {
    AppendMemberTokens(ps, (k, d));
    WritesOneMore(codec, ps, m, todo, k, d);
  }

  /** One round of the member loop. */
  method EncodeNext(b: Builder, v: Value, k: string, ghost codec: Codec, ghost todo: set<string>,
                    ghost ps: seq<(string, Doc)>, ghost written: seq<Token>)
    returns (ok: bool, ghost ps': seq<(string, Doc)>, ghost written': seq<Token>)
    requires v.Struct? && FloatsPrint(codec, v) && k in todo && Written(codec, ps, v.members, todo, written)
    modifies b
    ensures ok == Encodable(v.members[k])
    ensures ok ==> Written(codec, ps', v.members, todo - {k}, written')
    ensures ok ==> forall before :: old(b.toks) == before + written ==> b.toks == before + written'
    decreases v, 0
  {
    ps', written' := [], [];
    ghost var d;
    ok, d := EncodeMember(b, k, v.members[k], codec);
    if ok {
      WrittenOneMore(codec, ps, v.members, todo, written, k, d);
      ps', written' := ps + [(k, d)], written + MemberTokens((k, d));
      forall before | old(b.toks) == before + written
        ensures b.toks == before + written'
      {
        Associative(before, written, MemberTokens((k, d)));
      }
    }
  }

  method EncodeMembers(b: Builder, v: Value, ghost codec: Codec)
    returns (ok: bool, ghost ps: seq<(string, Doc)>, ghost written: seq<Token>)
    requires v.Struct? && FloatsPrint(codec, v)
    modifies b
    ensures ok == Encodable(v)
    ensures ok ==> Written(codec, ps, v.members, {}, written) && b.toks == old(b.toks) + written
    decreases v, 1
  {
    var todo := v.members.Keys;
    ps, written := [], [];
    WrittenNone(codec, v.members);
    while todo != {}
      invariant todo <= v.members.Keys
      invariant forall k :: k in v.members && k !in todo ==> Encodable(v.members[k])
      invariant Written(codec, ps, v.members, todo, written)
      invariant b.toks == old(b.toks) + written
      decreases todo
    {
      var k :| k in todo;
      ok, ps, written := EncodeNext(b, v, k, codec, todo, ps, written);
      if !ok {
        return;
      }
      todo := todo - {k};
    }
    ok := true;
  }

  method EncodeStruct(b: Builder, v: Value, ghost codec: Codec) returns (ok: bool, ghost doc: Doc)
    requires v.Struct? && FloatsPrint(codec, v)
    modifies b
    ensures ok == Encodable(v)
    ensures ok ==> ValidDoc(codec, doc) && Meaning(doc) == v
    ensures ok ==> b.toks == old(b.toks) + ([Start("value")] + Body(doc))
    decreases v, 2
  {
    b.Write([Start("value"), Start("struct")]);
    var membersOk, ps, written := EncodeMembers(b, v, codec);
    if !membersOk {
      b.Write([End("value")]);
      return false, Plain([]);
    }
    b.Write([End("struct"), End("value")]);
    doc := StructDoc([], MembersOf(ps), []);
    assert Taken(v.members, {}) == v.members;
    StructTokens(codec, MembersOf(ps), old(b.toks));
    ok := true;
  }

  /** `written` is what the encoder appends for `ds`, which writes down exactly `items`. */
  ghost predicate Listed(codec: Codec, ds: seq<Doc>, items: seq<Value>, written: seq<Token>) {
    ValidItems(codec, ItemsOf(ds)) && ItemsMeaning(ItemsOf(ds)) == items && written == ItemsBody(ItemsOf(ds))
  }

  lemma ListedOneMore(codec: Codec, ds: seq<Doc>, items: seq<Value>, written: seq<Token>, d: Doc, item: Value)
    requires Listed(codec, ds, items, written) && ValidDoc(codec, d) && Meaning(d) == item
    ensures Listed(codec, ds + [d], items + [item], written + ([Start("value")] + Body(d)))
  {
    AppendItem(codec, ds, d);
  }

  method EncodeItems(b: Builder, v: Value, ghost codec: Codec)
    returns (ok: bool, ghost ds: seq<Doc>, ghost written: seq<Token>)
    requires v.Array? && FloatsPrint(codec, v)
    modifies b
    ensures ok == Encodable(v)
    ensures ok ==> Listed(codec, ds, v.items, written) && b.toks == old(b.toks) + written
    decreases v, 0
  {
    ds, written := [], [];
    for i := 0 to |v.items|
      invariant forall x :: x in v.items[..i] ==> Encodable(x)
      invariant Listed(codec, ds, v.items[..i], written)
      invariant b.toks == old(b.toks) + written
    {
      ghost var d;
      ok, d := EncodeValue(b, v.items[i], codec);
      if !ok {
        return;
      }
      ListedOneMore(codec, ds, v.items[..i], written, d, v.items[i]);
      Associative(old(b.toks), written, [Start("value")] + Body(d));
      assert v.items[..i + 1] == v.items[..i] + [v.items[i]];
      ds, written := ds + [d], written + ([Start("value")] + Body(d));
    }
    assert v.items[..|v.items|] == v.items;
    ok := true;
  }

  method EncodeArray(b: Builder, v: Value, ghost codec: Codec) returns (ok: bool, ghost doc: Doc)
    requires v.Array? && FloatsPrint(codec, v)
    modifies b
    ensures ok == Encodable(v)
    ensures ok ==> ValidDoc(codec, doc) && Meaning(doc) == v
    ensures ok ==> b.toks == old(b.toks) + ([Start("value")] + Body(doc))
    decreases v, 1
  {
    b.Write([Start("value"), Start("array"), Start("data")]);
    var itemsOk, ds, written := EncodeItems(b, v, codec);
    if !itemsOk {
      b.Write([End("value")]);
      return false, Plain([]);
    }
    b.Write([End("data"), End("array"), End("value")]);
    doc := ArrayDoc([], [], ItemsOf(ds), [], []);
    ArrayTokens(codec, ItemsOf(ds), old(b.toks));
    ok := true;
  }

  // ---------------------------------------------------------------------------------------------------------------
  // Requests
  // ---------------------------------------------------------------------------------------------------------------

  function ParamToken(d: Doc): seq<Token> {
    [Start("param")] + ([Start("value")] + Body(d)) + [End("param")]
  }

  function ParamTokens(ds: seq<Doc>): seq<Token> {
    if ds == [] then [] else ParamTokens(ds[..|ds| - 1]) + ParamToken(ds[|ds| - 1])
  }

  function RequestHead(call: string): seq<Token> {
    [Misc, Start("methodCall"), Start("methodName")] + TextTokens(call) + [End("methodName"), Start("params")]
  }

  function RequestTokens(call: string, ds: seq<Doc>): seq<Token> {
    RequestHead(call) + ParamTokens(ds) + [End("params"), End("methodCall")]
  }

  /** `ds` writes down `args`, in order. */
  ghost predicate Documents(codec: Codec, ds: seq<Doc>, args: seq<Value>) {
    |ds| == |args| && forall i :: 0 <= i < |args| ==> ValidDoc(codec, ds[i]) && Meaning(ds[i]) == args[i]
  }

  lemma OneMoreDocument(codec: Codec, ds: seq<Doc>, args: seq<Value>, d: Doc, arg: Value)
    requires Documents(codec, ds, args) && ValidDoc(codec, d) && Meaning(d) == arg
    ensures Documents(codec, ds + [d], args + [arg])
    ensures ParamTokens(ds + [d]) == ParamTokens(ds) + ParamToken(d)
  {
    assert (ds + [d])[..|ds|] == ds;
  }

  method EncodeParam(b: Builder, v: Value, ghost codec: Codec) returns (ok: bool, ghost doc: Doc)
    requires FloatsPrint(codec, v)
    modifies b
    ensures ok == Encodable(v)
    ensures ok ==> ValidDoc(codec, doc) && Meaning(doc) == v && b.toks == old(b.toks) + ParamToken(doc)
  {
    b.Write([Start("param")]);
    ok, doc := EncodeValue(b, v, codec);
    if ok {
      b.Write([End("param")]);
    }
  }

  /** `written` is what the encoder appends for `ds`, which writes down exactly `args`. */
  ghost predicate Params(codec: Codec, ds: seq<Doc>, args: seq<Value>, written: seq<Token>) {
    Documents(codec, ds, args) && written == ParamTokens(ds)
  }

  lemma OneMoreParam(codec: Codec, ds: seq<Doc>, args: seq<Value>, written: seq<Token>, d: Doc, arg: Value)
    requires Params(codec, ds, args, written) && ValidDoc(codec, d) && Meaning(d) == arg
    ensures Params(codec, ds + [d], args + [arg], written + ParamToken(d))
  {
    OneMoreDocument(codec, ds, args, d, arg);
  }

  method EncodeParams(b: Builder, args: seq<Value>, ghost codec: Codec)
    returns (ok: bool, ghost ds: seq<Doc>, ghost written: seq<Token>)
    requires forall x :: x in args ==> FloatsPrint(codec, x)
    modifies b
    ensures ok <==> forall x :: x in args ==> Encodable(x)
    ensures ok ==> Params(codec, ds, args, written) && b.toks == old(b.toks) + written
  {
    ds, written := [], [];
    for i := 0 to |args|
      invariant forall x :: x in args[..i] ==> Encodable(x)
      invariant Params(codec, ds, args[..i], written)
      invariant b.toks == old(b.toks) + written
    {
      ghost var d;
      ok, d := EncodeParam(b, args[i], codec);
      if !ok {
        return;
      }
      OneMoreParam(codec, ds, args[..i], written, d, args[i]);
      Associative(old(b.toks), written, ParamToken(d));
      assert args[..i + 1] == args[..i] + [args[i]];
      ds, written := ds + [d], written + ParamToken(d);
    }
    assert args[..|args|] == args;
    ok := true;
  }

  /** What a reader of the request gets to see from behind the start of its parameters: one value each, in order. */
  ghost predicate ReadsParams(codec: Codec, toks: seq<Token>, args: seq<Value>, rest: seq<Token>)
    decreases |args|
  {
    if args == [] then toks == rest
    else
      && |toks| > 2 && toks[0] == Start("param") && toks[1] == Start("value")
      && var e := codec.DecodeValue(toks[2..], "", None);
      && e.Ok? && e.value.0 == args[0]
      && e.value.1 != [] && e.value.1[0] == End("param") && ReadsParams(codec, e.value.1[1..], args[1..], rest)
  }

  /** Read with the same decoder, a request names the method and carries the arguments. */
  ghost predicate ReadsAs(codec: Codec, toks: seq<Token>, call: string, args: seq<Value>) {
    && |toks| > 3 && toks[..3] == [Misc, Start("methodCall"), Start("methodName")]
    && var name := codec.ReadText(toks[3..], "");
    && name.Ok? && name.value.0 == call
    && name.value.1 != [] && name.value.1[0] == Start("params")
    && ReadsParams(codec, name.value.1[1..], args, [End("params"), End("methodCall")])
  }

  lemma {:induction false} ParamTokensHead(ds: seq<Doc>)
    requires ds != []
    ensures ParamTokens(ds) == ParamToken(ds[0]) + ParamTokens(ds[1..])
    decreases |ds|
  {
    var n := |ds| - 1;
    if n == 0 {
      assert ds[..0] == [] && ds[1..] == [];
    } else {
      ParamTokensHead(ds[..n]);
      MiddleDocs(ds);
      Associative(ParamToken(ds[0]), ParamTokens(ds[1..n]), ParamToken(ds[n]));
    }
  }

  lemma MiddleDocs(ds: seq<Doc>)
    requires |ds| > 1
    ensures var n := |ds| - 1;
            && ds[..n][0] == ds[0] && ds[..n][1..] == ds[1..n]
            && ParamTokens(ds[1..]) == ParamTokens(ds[1..n]) + ParamToken(ds[n])
  {
    var n := |ds| - 1;
    assert |ds[1..]| == n && ds[1..][..n - 1] == ds[1..n] && ds[1..][n - 1] == ds[n];
  }

  lemma ParamShape(d: Doc, more: seq<Token>)
    ensures ParamToken(d) + more == [Start("param"), Start("value")] + (Body(d) + ([End("param")] + more))
  {
    assert ParamToken(d) == [Start("param"), Start("value")] + (Body(d) + [End("param")]);
    Associative([Start("param"), Start("value")], Body(d) + [End("param")], more);
    Associative(Body(d), [End("param")], more);
  }

  lemma {:induction false} ParamsAreRead(codec: Codec, ds: seq<Doc>, args: seq<Value>, rest: seq<Token>)
    requires Documents(codec, ds, args)
    ensures ReadsParams(codec, ParamTokens(ds) + rest, args, rest)
    decreases |args|
  {
    if args == [] {
      assert ParamTokens(ds) + rest == rest;
    } else {
      var more := ParamTokens(ds[1..]) + rest;
      ParamTokensHead(ds);
      Associative(ParamToken(ds[0]), ParamTokens(ds[1..]), rest);
      ParamShape(ds[0], more);
      DecodeBody(codec, ds[0], [End("param")] + more);
      ParamsAreRead(codec, ds[1..], args[1..], rest);
      OneParamRead(codec, ds[0], more, args, rest);
    }
  }

  lemma OneParamRead(codec: Codec, d: Doc, more: seq<Token>, args: seq<Value>, rest: seq<Token>)
    requires args != [] && Meaning(d) == args[0] && ReadsParams(codec, more, args[1..], rest)
    requires codec.DecodeValue(Body(d) + ([End("param")] + more), "", None) == Ok((args[0], [End("param")] + more))
    ensures ReadsParams(codec, [Start("param"), Start("value")] + (Body(d) + ([End("param")] + more)), args, rest)
  {
    var toks := [Start("param"), Start("value")] + (Body(d) + ([End("param")] + more));
    assert toks[2..] == Body(d) + ([End("param")] + more);
    assert ([End("param")] + more)[1..] == more;
  }

  lemma RequestShape(call: string, ds: seq<Doc>)
    ensures RequestTokens(call, ds)
         == [Misc, Start("methodCall"), Start("methodName")]
            + (TextTokens(call) + ([End("methodName")] + ([Start("params")]
            + (ParamTokens(ds) + [End("params"), End("methodCall")]))))
  {
    var behind := ParamTokens(ds) + [End("params"), End("methodCall")];
    Associative(RequestHead(call), ParamTokens(ds), [End("params"), End("methodCall")]);
    assert [End("methodName"), Start("params")] + behind == [End("methodName")] + ([Start("params")] + behind);
    Associative([Misc, Start("methodCall"), Start("methodName")] + TextTokens(call),
                [End("methodName"), Start("params")], behind);
    Associative([Misc, Start("methodCall"), Start("methodName")], TextTokens(call),
                [End("methodName"), Start("params")] + behind);
  }

  lemma RequestIsRead(codec: Codec, call: string, ds: seq<Doc>, args: seq<Value>)
    requires Documents(codec, ds, args)
    ensures ReadsAs(codec, RequestTokens(call, ds), call, args)
  {
    var end := [End("params"), End("methodCall")];
    var params := [Start("params")] + (ParamTokens(ds) + end);
    var head := [Misc, Start("methodCall"), Start("methodName")];
    var behind := TextTokens(call) + ([End("methodName")] + params);
    RequestShape(call, ds);
    assert (head + behind)[..3] == head && (head + behind)[3..] == behind;
    TextReads(codec, TextTokens(call), "methodName", params, "");
    assert "" + call == call;
    ParamsAreRead(codec, ds, args, end);
    assert params[1..] == ParamTokens(ds) + end;
  }

  /** A request holds, in order, one document for each argument; there is none if some argument is unsupported. */
  method EncodeRequest(call: string, args: seq<Value>, ghost codec: Codec)
    returns (r: Option<seq<Token>>, ghost ds: seq<Doc>)
    requires forall x :: x in args ==> FloatsPrint(codec, x)
    ensures r.Some? <==> forall x :: x in args ==> Encodable(x)
    ensures r.Some? ==> r.value == RequestTokens(call, ds) && Documents(codec, ds, args)
    ensures r.Some? ==> ReadsAs(codec, r.value, call, args)
  {
    var b := new Builder();
    b.Write(RequestHead(call));
    assert b.toks == RequestHead(call);
    var ok;
    ghost var written;
    ok, ds, written := EncodeParams(b, args, codec);
    if !ok {
      return None, ds;
    }
    b.Write([End("params"), End("methodCall")]);
    r := Some(b.toks);
    RequestIsRead(codec, call, ds, args);
  }

  /** What the encoder appends for a value, the decoder reads back as that value, whatever follows it. */
  method EncodeThenDecode(v: Value, rest: seq<Token>, codec: Codec)
    returns (r: Result<Value, Failure>, left: seq<Token>)
    requires FloatsPrint(codec, v) && Encodable(v)
    ensures r == Ok(v) && left == rest
  {
    var b := new Builder();
    var ok, doc := EncodeValue(b, v, codec);
    var dec := new TokenReader(b.toks + rest);
    NothingAround([Start("value")] + Body(doc));
    Associative([Start("value")], Body(doc), rest);
    var start := dec.Token();
    assert dec.Left() == Body(doc) + rest;
    DecodeBody(codec, doc, rest);
    r := DecodeValue(codec, dec);
    left := dec.Left();
  }
}
