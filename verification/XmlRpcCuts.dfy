/** What the decoders make of a response that is cut short: nothing that is read depends on what follows it, and an
    incomplete value is never taken for a complete one. */
module XmlRpcCuts {
  import opened Common
  import opened GoText
  import opened XmlRpc

  /** `c` is read from the first `n` of the tokens from which `r` is read. */
  ghost predicate CutAt<T>(toks: seq<Token>, n: nat, r: Decoded<T>, c: Decoded<T>)
    requires n <= |toks| && Consumes(toks, r)
  {
    if r.Ok? then
      var used := |toks| - |r.value.1|;
      c == if n < used then Err(EndOfInput) else Ok((r.value.0, toks[used..n]))
    else c == Err(EndOfInput) || c == r
  }

  /** Reading starts behind the first `k` tokens. */
  lemma CutBehind<T>(toks: seq<Token>, k: nat, n: nat, r: Decoded<T>, c: Decoded<T>)
    requires k <= n <= |toks| && Consumes(toks[k..], r) && CutAt(toks[k..], n - k, r, c)
    ensures Consumes(toks, r) && CutAt(toks, n, r, c)
  {
    if r.Ok? {
      var used := |toks| - |r.value.1|;
      assert toks[k..][used - k..] == toks[used..];
      if n >= used {
        assert toks[k..][used - k..n - k] == toks[used..n];
      }
    }
  }

  lemma TailOfCut(toks: seq<Token>, k: nat, n: nat)
    requires k <= n <= |toks|
    ensures toks[..n][k..] == toks[k..][..n - k] && toks[k..n] == toks[k..][..n - k]
  {
  }

  /** Where a part that starts behind the first token ends, and what becomes of it. */
  lemma PartCut<T>(toks: seq<Token>, n: nat, e: Decoded<T>, c: Decoded<T>) returns (k: nat)
    requires 0 < n <= |toks| && e.Ok? && Consumes(toks[1..], e) && CutAt(toks[1..], n - 1, e, c)
    ensures 1 < k <= |toks| && k == |toks| - |e.value.1| && e.value.1 == toks[k..]
    ensures c == if n < k then Err(EndOfInput) else Ok((e.value.0, toks[k..][..n - k]))
  {
    k := |toks| - |e.value.1|;
    assert toks[1..][k - 1..] == toks[k..];
    if k <= n {
      assert toks[1..][k - 1..n - 1] == toks[k..][..n - k];
    }
  }

  lemma {:induction false} TextCut(codec: Codec, toks: seq<Token>, text: string, n: nat)
    requires n <= |toks|
    ensures CutAt(toks, n, codec.ReadText(toks, text), codec.ReadText(toks[..n], text))
    decreases |toks|
  {
    if n > 0 {
      TailOfCut(toks, 1, n);
      if !toks[0].End? {
        var text' := if toks[0].Text? then text + toks[0].text else text;
        TextCut(codec, toks[1..], text', n - 1);
        CutBehind(toks, 1, n, codec.ReadText(toks[1..], text'), codec.ReadText(toks[1..][..n - 1], text'));
      }
    }
  }

  lemma {:induction false} SkipCut(codec: Codec, toks: seq<Token>, name: string, n: nat)
    requires n <= |toks|
    ensures CutAt(toks, n, codec.SkipTo(toks, name), codec.SkipTo(toks[..n], name))
    decreases |toks|
  {
    if n > 0 {
      TailOfCut(toks, 1, n);
      if toks[0] != End(name) {
        SkipCut(codec, toks[1..], name, n - 1);
        CutBehind(toks, 1, n, codec.SkipTo(toks[1..], name), codec.SkipTo(toks[1..][..n - 1], name));
      }
    }
  }

  lemma {:induction false} ElementCut(codec: Codec, name: string, toks: seq<Token>, n: nat)
    requires n <= |toks|
    ensures CutAt(toks, n, codec.DecodeElement(name, toks), codec.DecodeElement(name, toks[..n]))
    decreases |toks|, 1
  {
    if codec.IsScalar(name) {
      TextCut(codec, toks, "", n);
    } else if name == "struct" {
      StructCut(codec, toks, map[], n);
    } else if name == "array" {
      ArrayCut(codec, toks, [], n);
    } else {
      SkipCut(codec, toks, name, n);
    }
  }

  /** A value: cut before its end tag it is incomplete, and cut behind it, it is what it was. */
  lemma {:induction false} ValueCut(codec: Codec, toks: seq<Token>, chars: string, result: Option<Value>, n: nat)
    requires n <= |toks|
    ensures CutAt(toks, n, codec.DecodeValue(toks, chars, result), codec.DecodeValue(toks[..n], chars, result))
    decreases |toks|, 0
  {
    if n > 0 {
      TailOfCut(toks, 1, n);
      if toks[0].Start? {
        ElementCut(codec, toks[0].name, toks[1..], n - 1);
        var e := codec.DecodeElement(toks[0].name, toks[1..]);
        if e.Ok? {
          var k := PartCut(toks, n, e, codec.DecodeElement(toks[0].name, toks[1..][..n - 1]));
          if k <= n {
            ValueCut(codec, toks[k..], chars, Some(e.value.0), n - k);
            CutBehind(toks, k, n, codec.DecodeValue(toks[k..], chars, Some(e.value.0)),
                      codec.DecodeValue(toks[k..][..n - k], chars, Some(e.value.0)));
          }
        }
      } else if toks[0] != End("value") {
        var chars' := if toks[0].Text? && result.None? then chars + toks[0].text else chars;
        ValueCut(codec, toks[1..], chars', result, n - 1);
        CutBehind(toks, 1, n, codec.DecodeValue(toks[1..], chars', result),
                  codec.DecodeValue(toks[1..][..n - 1], chars', result));
      }
    }
  }

  lemma {:induction false} StructCut(codec: Codec, toks: seq<Token>, m: map<string, Value>, n: nat)
    requires n <= |toks|
    ensures CutAt(toks, n, codec.DecodeStruct(toks, m), codec.DecodeStruct(toks[..n], m))
    decreases |toks|, 0
  {
    if n > 0 {
      TailOfCut(toks, 1, n);
      if toks[0] == Start("member") {
        StructMemberCut(codec, toks, m, n);
      } else if toks[0] != End("struct") {
        StructGoesOn(codec, toks, 1, m, n);
      }
    }
  }

  lemma {:induction false} StructMemberCut(codec: Codec, toks: seq<Token>, m: map<string, Value>, n: nat)
    requires 0 < n <= |toks| && toks[0] == Start("member") && toks[..n][1..] == toks[1..][..n - 1]
    ensures CutAt(toks, n, codec.DecodeStruct(toks, m), codec.DecodeStruct(toks[..n], m))
    decreases |toks| - 1, 2
  {
    var e, c := codec.DecodeMember(toks[1..], "", Nil), codec.DecodeMember(toks[1..][..n - 1], "", Nil);
    MemberCut(codec, toks[1..], "", Nil, n - 1);
    if e.Ok? {
      var k := PartCut(toks, n, e, c);
      if k <= n {
        StructGoesOn(codec, toks, k, m[e.value.0.0 := e.value.0.1], n);
      }
    }
  }

  lemma {:induction false} StructGoesOn(codec: Codec, toks: seq<Token>, k: nat, m: map<string, Value>, n: nat)
    requires 0 < k <= n <= |toks|
    ensures var r := codec.DecodeStruct(toks[k..], m);
            Consumes(toks, r) && CutAt(toks, n, r, codec.DecodeStruct(toks[k..][..n - k], m))
    decreases |toks| - k, 1
  {
    StructCut(codec, toks[k..], m, n - k);
    CutBehind(toks, k, n, codec.DecodeStruct(toks[k..], m), codec.DecodeStruct(toks[k..][..n - k], m));
  }

  lemma {:induction false} MemberCut(codec: Codec, toks: seq<Token>, name: string, val: Value, n: nat)
    requires n <= |toks|
    ensures CutAt(toks, n, codec.DecodeMember(toks, name, val), codec.DecodeMember(toks[..n], name, val))
    decreases |toks|, 0
  {
    if n > 0 {
      TailOfCut(toks, 1, n);
      if toks[0] == Start("name") {
        MemberNameCut(codec, toks, name, val, n);
      } else if toks[0] == Start("value") {
        MemberValueCut(codec, toks, name, val, n);
      } else if toks[0] != End("member") {
        MemberGoesOn(codec, toks, 1, name, val, n);
      }
    }
  }

  lemma {:induction false} MemberNameCut(codec: Codec, toks: seq<Token>, name: string, val: Value, n: nat)
    requires 0 < n <= |toks| && toks[0] == Start("name") && toks[..n][1..] == toks[1..][..n - 1]
    ensures CutAt(toks, n, codec.DecodeMember(toks, name, val), codec.DecodeMember(toks[..n], name, val))
    decreases |toks| - 1, 2
  {
    var e, c := codec.ReadText(toks[1..], ""), codec.ReadText(toks[1..][..n - 1], "");
    TextCut(codec, toks[1..], "", n - 1);
    if e.Ok? {
      var k := PartCut(toks, n, e, c);
      if k <= n {
        MemberGoesOn(codec, toks, k, e.value.0, val, n);
      }
    }
  }

  lemma {:induction false} MemberValueCut(codec: Codec, toks: seq<Token>, name: string, val: Value, n: nat)
    requires 0 < n <= |toks| && toks[0] == Start("value") && toks[..n][1..] == toks[1..][..n - 1]
    ensures CutAt(toks, n, codec.DecodeMember(toks, name, val), codec.DecodeMember(toks[..n], name, val))
    decreases |toks| - 1, 2
  {
    var e, c := codec.DecodeValue(toks[1..], "", None), codec.DecodeValue(toks[1..][..n - 1], "", None);
    ValueCut(codec, toks[1..], "", None, n - 1);
    if e.Ok? {
      var k := PartCut(toks, n, e, c);
      if k <= n {
        MemberGoesOn(codec, toks, k, name, e.value.0, n);
      }
    }
  }

  lemma {:induction false} MemberGoesOn(codec: Codec, toks: seq<Token>, k: nat, name: string, val: Value, n: nat)
    requires 0 < k <= n <= |toks|
    ensures var r := codec.DecodeMember(toks[k..], name, val);
            Consumes(toks, r) && CutAt(toks, n, r, codec.DecodeMember(toks[k..][..n - k], name, val))
    decreases |toks| - k, 1
  {
    MemberCut(codec, toks[k..], name, val, n - k);
    CutBehind(toks, k, n, codec.DecodeMember(toks[k..], name, val), codec.DecodeMember(toks[k..][..n - k], name, val));
  }

  lemma {:induction false} ArrayCut(codec: Codec, toks: seq<Token>, items: seq<Value>, n: nat)
    requires n <= |toks|
    ensures CutAt(toks, n, codec.DecodeArray(toks, items), codec.DecodeArray(toks[..n], items))
    decreases |toks|, 0
  {
    if n > 0 {
      TailOfCut(toks, 1, n);
      if toks[0] == Start("value") {
        ValueCut(codec, toks[1..], "", None, n - 1);
        var e := codec.DecodeValue(toks[1..], "", None);
        if e.Ok? {
          var k := PartCut(toks, n, e, codec.DecodeValue(toks[1..][..n - 1], "", None));
          if k <= n {
            var items' := items + [e.value.0];
            ArrayCut(codec, toks[k..], items', n - k);
            CutBehind(toks, k, n, codec.DecodeArray(toks[k..], items'),
                      codec.DecodeArray(toks[k..][..n - k], items'));
          }
        }
      } else if toks[0] != End("array") {
        ArrayCut(codec, toks[1..], items, n - 1);
        CutBehind(toks, 1, n, codec.DecodeArray(toks[1..], items), codec.DecodeArray(toks[1..][..n - 1], items));
      }
    }
  }

  // ---------------------------------------------------------------------------------------------------------------
  // Responses
  // ---------------------------------------------------------------------------------------------------------------

  /** A response cut short anywhere before the end of its value is refused as incomplete, and anything cut off behind
      it does not matter. */
  lemma CutResponse(codec: Codec, before: seq<Token>, doc: Doc, rest: seq<Token>, n: nat)
    requires Before(before) && ValidDoc(codec, doc) && n <= |before + ([Start("value")] + (Body(doc) + rest))|
    ensures DecodeResponse(codec, (before + ([Start("value")] + (Body(doc) + rest)))[..n], false)
         == if n < |before| + 1 + |Body(doc)| then Failed(EndOfInput) else Return(Meaning(doc))
  {
    var toks := before + ([Start("value")] + (Body(doc) + rest));
    if n <= |before| {
      assert toks[..n] == before[..n] + [];
      forall t | t in before[..n]
        ensures t != Start("value") && t != Start("fault")
      {
        assert t in before;
      }
      ResponseSkips(codec, before[..n], [], false);
    } else {
      var tail := (Body(doc) + rest)[..n - |before| - 1];
      assert toks[..n] == before + ([Start("value")] + tail);
      ResponseSkips(codec, before, [Start("value")] + tail, false);
      assert ([Start("value")] + tail)[1..] == tail;
      DecodeBody(codec, doc, rest);
      ValueCut(codec, Body(doc) + rest, "", None, n - |before| - 1);
    }
  }

  /** A response without a value is refused as incomplete. */
  lemma NoValue(codec: Codec, toks: seq<Token>)
    requires Start("value") !in toks
    ensures DecodeResponse(codec, toks, false) == Failed(EndOfInput)
  {
    NoValueAfter(codec, toks, false);
  }

  lemma {:induction false} NoValueAfter(codec: Codec, toks: seq<Token>, fault: bool)
    requires Start("value") !in toks
    ensures DecodeResponse(codec, toks, fault) == Failed(EndOfInput)
    decreases |toks|
  {
    if toks != [] {
      assert toks[0] in toks && forall t :: t in toks[1..] ==> t in toks;
      NoValueAfter(codec, toks[1..], fault || toks[0] == Start("fault"));
    }
  }
}
