/** The part of Gson's `JsonObject` that the relay uses: an object whose
    members keep the order in which they were first added, built with
    `addProperty` from strings, numbers and booleans. */
module Json {

  import opened Options

  /** A `JsonPrimitive`: the value `addProperty` wraps. */
  datatype JsonValue = JString(str: string) | JNumber(num: int) | JBool(truth: bool)

  datatype Member = Member(name: string, value: JsonValue)

  /** Members in insertion order. */
  datatype JsonObject = JsonObject(members: seq<Member>)

  const Empty: JsonObject := JsonObject([])

  /** The member names, in order. */
  function Keys(o: JsonObject): (ks: seq<string>)
    ensures |ks| == |o.members|
    ensures forall i :: 0 <= i < |ks| ==> ks[i] == o.members[i].name
  {
    seq(|o.members|, i requires 0 <= i < |o.members| => o.members[i].name)
  }

  /** No name occurs twice, as in the map that backs a `JsonObject`. */
  predicate DistinctKeys(o: JsonObject)
  {
    forall i, j :: 0 <= i < j < |o.members| ==> o.members[i].name != o.members[j].name
  }

  /** `get(name)`: the value stored under a name, if any. */
  function Get(o: JsonObject, name: string): (r: Option<JsonValue>)
    ensures r.None? <==> name !in Keys(o)
    ensures r.Some? ==> Member(name, r.value) in o.members
    decreases |o.members|
  {
    if |o.members| == 0 then None
    else if o.members[0].name == name then Some(o.members[0].value)
    else Get(JsonObject(o.members[1..]), name)
  }

  lemma GetCons(m: Member, rest: seq<Member>, name: string)
    ensures Get(JsonObject([m] + rest), name) ==
      if m.name == name then Some(m.value) else Get(JsonObject(rest), name)
  {
    assert ([m] + rest)[1..] == rest;
  }

  lemma KeysCons(m: Member, rest: seq<Member>)
    ensures Keys(JsonObject([m] + rest)) == [m.name] + Keys(JsonObject(rest))
  {
  }

  /** In an object without duplicate names, each member's name looks up
      that member's value. */
  lemma {:induction false} GetMember(o: JsonObject, i: nat)
    requires DistinctKeys(o) && i < |o.members|
    ensures Get(o, o.members[i].name) == Some(o.members[i].value)
    decreases |o.members|
  {
    var m, tail := o.members[0], o.members[1..];
    assert o.members == [m] + tail;
    if i > 0 {
      var n := o.members[i].name;
      assert m.name != n;
      assert tail[i - 1] == o.members[i];
      forall j, k | 0 <= j < k < |tail|
        ensures tail[j].name != tail[k].name
      {
        assert tail[j] == o.members[j + 1] && tail[k] == o.members[k + 1];
      }
      GetMember(JsonObject(tail), i - 1);
      GetCons(m, tail, n);
    }
  }

  /** `addProperty(name, value)`: a member with a new name goes at the end;
      a member with a name already present has its value replaced where it
      stands, as with the insertion-ordered map behind a `JsonObject`. */
  function AddProperty(o: JsonObject, name: string, value: JsonValue): (r: JsonObject)
    ensures |r.members| >= |o.members|
    decreases |o.members|
  {
    if |o.members| == 0 then JsonObject([Member(name, value)])
    else if o.members[0].name == name then JsonObject([Member(name, value)] + o.members[1..])
    else JsonObject([o.members[0]] + AddProperty(JsonObject(o.members[1..]), name, value).members)
  }

  /** After `addProperty`, the name holds the new value and every other name
      holds what it held before. */
  lemma {:induction false} AddPropertyGet(o: JsonObject, name: string, value: JsonValue, n: string)
    ensures Get(AddProperty(o, name, value), n) == if n == name then Some(value) else Get(o, n)
    decreases |o.members|
  {
    if |o.members| > 0 {
      var m, tail := o.members[0], o.members[1..];
      assert o.members == [m] + tail;
      GetCons(m, tail, n);
      if m.name == name {
        GetCons(Member(name, value), tail, n);
      } else {
        var rest := AddProperty(JsonObject(tail), name, value);
        AddPropertyGet(JsonObject(tail), name, value, n);
        GetCons(m, rest.members, n);
      }
    }
  }

  /** `addProperty` keeps the order of the names: a new name is appended,
      an existing one stays where it is. */
  lemma {:induction false} AddPropertyKeys(o: JsonObject, name: string, value: JsonValue)
    ensures Keys(AddProperty(o, name, value)) == if name in Keys(o) then Keys(o) else Keys(o) + [name]
    decreases |o.members|
  {
    if |o.members| > 0 {
      var m, tail := o.members[0], o.members[1..];
      assert o.members == [m] + tail;
      KeysCons(m, tail);
      if m.name == name {
        KeysCons(Member(name, value), tail);
      } else {
        var rest := AddProperty(JsonObject(tail), name, value);
        AddPropertyKeys(JsonObject(tail), name, value);
        KeysCons(m, rest.members);
      }
    }
  }

  /** A property with a name not yet present is appended. */
  lemma {:induction false} AddPropertyFresh(o: JsonObject, name: string, value: JsonValue)
    requires name !in Keys(o)
    ensures AddProperty(o, name, value).members == o.members + [Member(name, value)]
    decreases |o.members|
  {
    if |o.members| > 0 {
      var m, tail := o.members[0], o.members[1..];
      assert o.members == [m] + tail;
      KeysCons(m, tail);
      AddPropertyFresh(JsonObject(tail), name, value);
    }
  }

  /** A run of `addProperty` calls, one per member, in order. */
  function AddProperties(o: JsonObject, ms: seq<Member>): (r: JsonObject)
    ensures |r.members| >= |o.members|
    decreases |ms|
  {
    if |ms| == 0 then o
    else AddProperties(AddProperty(o, ms[0].name, ms[0].value), ms[1..])
  }

  /** Properties with distinct names, none present yet, are appended in the
      order they are added. */
  lemma {:induction false} AddPropertiesFresh(o: JsonObject, ms: seq<Member>)
    requires forall i, j :: 0 <= i < j < |ms| ==> ms[i].name != ms[j].name
    requires forall i :: 0 <= i < |ms| ==> ms[i].name !in Keys(o)
    ensures AddProperties(o, ms).members == o.members + ms
    decreases |ms|
  {
    if |ms| > 0 {
      var m, tail := ms[0], ms[1..];
      var o' := AddProperty(o, m.name, m.value);
      AddPropertyFresh(o, m.name, m.value);
      assert Keys(o') == Keys(o) + [m.name];
      assert forall i :: 0 <= i < |tail| ==> tail[i].name !in Keys(o') by {
        forall i | 0 <= i < |tail|
          ensures tail[i].name !in Keys(o')
        {
          assert tail[i] == ms[i + 1];
        }
      }
      assert forall i, j :: 0 <= i < j < |tail| ==> tail[i].name != tail[j].name by {
        forall i, j | 0 <= i < j < |tail|
          ensures tail[i].name != tail[j].name
        {
          assert tail[i] == ms[i + 1] && tail[j] == ms[j + 1];
        }
      }
      AddPropertiesFresh(o', tail);
      assert o.members + [m] + tail == o.members + ms;
    }
  }

  /** Adding a property never introduces a duplicate name. */
  lemma AddPropertyKeepsDistinct(o: JsonObject, name: string, value: JsonValue)
    requires DistinctKeys(o)
    ensures DistinctKeys(AddProperty(o, name, value))
  {
    var r := AddProperty(o, name, value);
    AddPropertyKeys(o, name, value);
    var ks := Keys(r);
    forall i, j | 0 <= i < j < |r.members|
      ensures r.members[i].name != r.members[j].name
    {
      assert r.members[i].name == ks[i] && r.members[j].name == ks[j];
      if name !in Keys(o) && j == |Keys(o)| {
        assert ks[i] == Keys(o)[i];
      } else {
        assert ks[i] == o.members[i].name && ks[j] == o.members[j].name;
      }
    }
  }
}
