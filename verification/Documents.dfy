/** Documents as ordered fields under distinct keys, and the encodings the wire parser relies on. */
module Documents {
  import opened Options
  import opened Bytes

  datatype Value = Text(text: string) | Docs(documents: seq<Document>) | Opaque(tag: nat)

  datatype Field = Field(key: string, value: Value)

  datatype Document = Document(fields: seq<Field>) {

    predicate Valid() {
      forall i, j | 0 <= i < j < |fields| :: fields[i].key != fields[j].key
    }

    function Keys(): (keys: seq<string>)
      ensures |keys| == |fields|
      ensures forall i | 0 <= i < |fields| :: keys[i] == fields[i].key
    {
      seq(|fields|, i requires 0 <= i < |fields| => fields[i].key)
    }

    /** Where `key` is, or the length. */
    function Find(key: string): (i: nat)
      ensures i <= |fields|
      ensures i < |fields| ==> fields[i].key == key
      ensures forall j | 0 <= j < i :: fields[j].key != key
    {
      FindFrom(fields, key, 0)
    }

    function Get(key: string): Option<Value> {
      var i := Find(key);
      if i < |fields| then Some(fields[i].value) else None
    }

    /** In place if the key is there, at the end if it is not. */
    function Insert(key: string, value: Value): Document {
      var i := Find(key);
      if i < |fields| then Document(fields[i := Field(key, value)]) else Document(fields + [Field(key, value)])
    }

    /** What follows closes up. */
    function Remove(key: string): Document {
      var i := Find(key);
      if i < |fields| then Document(fields[..i] + fields[i + 1..]) else this
    }
  }

  function FindFrom(fields: seq<Field>, key: string, from: nat): (i: nat)
    requires from <= |fields|
    requires forall j | 0 <= j < from :: fields[j].key != key
    ensures from <= i <= |fields|
    ensures i < |fields| ==> fields[i].key == key
    ensures forall j | 0 <= j < i :: fields[j].key != key
    decreases |fields| - from
  {
    if from == |fields| || fields[from].key == key then from else FindFrom(fields, key, from + 1)
  }

  lemma {:induction false} FoundAt(document: Document, i: nat)
    requires document.Valid() && i < |document.fields|
    ensures document.Find(document.fields[i].key) == i
  {
  }

  /** Insertion sets one key and leaves the rest, and never adds one twice. */
  lemma {:induction false} Inserted(document: Document, key: string, value: Value, other: string)
    requires document.Valid()
    ensures document.Insert(key, value).Valid()
    ensures document.Insert(key, value).Get(other) == if other == key then Some(value) else document.Get(other)
    ensures document.Insert(key, value).Keys() ==
            if key in document.Keys() then document.Keys() else document.Keys() + [key]
  {
    var d := document.Insert(key, value);
    var i := document.Find(key);
    assert key in document.Keys() <==> i < |document.fields| by {
      if i < |document.fields| {
        assert document.Keys()[i] == key;
      }
    }
    assert d.fields[i] == Field(key, value);
    if other != key {
      var k := document.Find(other);
      if k < |document.fields| {
        assert d.fields[k] == document.fields[k];
        FoundAt(d, k);
      }
    } else {
      FoundAt(d, i);
    }
  }

  /** The fields under every other key, in order. */
  function WithoutKey(fields: seq<Field>, key: string): seq<Field>
    decreases |fields|
  {
    if fields == [] then []
    else (if fields[0].key == key then [] else [fields[0]]) + WithoutKey(fields[1..], key)
  }

  lemma {:induction false} NoneWithKey(fields: seq<Field>, key: string)
    requires forall i | 0 <= i < |fields| :: fields[i].key != key
    ensures WithoutKey(fields, key) == fields
    decreases |fields|
  {
    if fields != [] {
      NoneWithKey(fields[1..], key);
      assert fields == [fields[0]] + fields[1..];
    }
  }

  lemma {:induction false} OneWithKey(fields: seq<Field>, key: string, i: nat)
    requires i < |fields| && forall j | 0 <= j < |fields| :: fields[j].key == key <==> j == i
    ensures WithoutKey(fields, key) == fields[..i] + fields[i + 1..]
    decreases |fields|
  {
    if i == 0 {
      NoneWithKey(fields[1..], key);
      assert fields[..0] + fields[1..] == fields[1..];
    } else {
      OneWithKey(fields[1..], key, i - 1);
      assert fields[..i] == [fields[0]] + fields[1..][..i - 1];
      assert fields[i + 1..] == fields[1..][i..];
    }
  }

  lemma {:induction false} OthersKept(document: Document, key: string)
    requires document.Valid()
    ensures document.Remove(key).fields == WithoutKey(document.fields, key)
  {
    hide WithoutKey;
    var i := document.Find(key);
    if i < |document.fields| {
      OneWithKey(document.fields, key, i);
    } else {
      NoneWithKey(document.fields, key);
    }
  }

  lemma {:induction false} Closed(document: Document, key: string)
    requires document.Valid() && document.Find(key) < |document.fields|
    ensures var d, i := document.Remove(key), document.Find(key);
            && |d.fields| == |document.fields| - 1
            && (forall j | 0 <= j < i :: d.fields[j] == document.fields[j])
            && (forall j | i <= j < |d.fields| :: d.fields[j] == document.fields[j + 1])
            && d.Valid() && (forall j | 0 <= j < |d.fields| :: d.fields[j].key != key)
  {
  }

  /** Removal takes one key away, with its value, and leaves the rest in order. */
  lemma {:induction false} Removed(document: Document, key: string, other: string)
    requires document.Valid()
    ensures document.Remove(key).Valid()
    ensures document.Remove(key).Get(other) == if other == key then None else document.Get(other)
    ensures document.Remove(key).fields == WithoutKey(document.fields, key)
  {
    OthersKept(document, key);
    hide WithoutKey;
    var i := document.Find(key);
    if i < |document.fields| {
      Closed(document, key);
      var d := document.Remove(key);
      hide Document.Remove, Document.Valid;
      var k := document.Find(other);
      if other != key && k < |document.fields| {
        var j := if k < i then k else k - 1;
        assert d.fields[j] == document.fields[k];
        FoundAt(d, j);
      }
    }
  }

  /** Encoding and decoding of documents and of text, which are not modelled further. */
  datatype Codec = Codec(
    encode: Document -> Option<seq<Byte>>,
    decode: seq<Byte> -> Option<Document>,
    utf8: seq<Byte> -> Option<string>,
    ofText: string -> seq<Byte>)
  {
    /** What is relied on: a document encoded decodes to itself and starts with its own length,
        text does as well, and only a NUL character has a zero byte. */
    ghost predicate Lawful() {
      && (forall d :: encode(d).Some? ==>
            && decode(encode(d).value) == Some(d)
            && 5 <= |encode(d).value| <= I32_MAX && I32At(encode(d).value, 0) == |encode(d).value|)
      && (forall b :: decode(b).Some? ==> decode(b).value.Valid())
      && (forall s :: utf8(ofText(s)) == Some(s))
      && (forall s :: '\0' !in s ==> 0 !in ofText(s))
    }
  }
}
