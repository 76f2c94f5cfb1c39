/** Records with a fixed list of keys, as canonical JSON objects. */
module Records {
  import opened Wrappers
  import opened Json

  function Build(keys: seq<string>, values: seq<Value>): Members
    requires |keys| == |values|
  {
    if keys == [] then Nil else Member(keys[0], values[0], Build(keys[1..], values[1..]))
  }

  /** The values of an object that has exactly these keys. For a canonical object, whose keys are
      sorted and distinct, comparing key sets is comparing key lists. */
  function Take(m: Members, keys: seq<string>): (values: Option<seq<Value>>)
    ensures values.Some? ==> |values.value| == |keys|
    decreases m
  {
    match m
    case Nil => if keys == [] then Some([]) else None
    case Member(k, v, rest) =>
      if keys == [] || k != keys[0] then None
      else
        match Take(rest, keys[1..])
        case None => None
        case Some(values) => Some([v] + values)
  }

  lemma {:induction false} TakeIsExact(m: Members, keys: seq<string>, values: seq<Value>)
    requires |keys| == |values|
    ensures Take(m, keys) == Some(values) <==> m == Build(keys, values)
    decreases m
  {
    if m.Member? && keys != [] {
      TakeIsExact(m.rest, keys[1..], values[1..]);
      assert values == [values[0]] + values[1..];
      if Take(m.rest, keys[1..]).Some? {
        var tail := Take(m.rest, keys[1..]).value;
        assert ([m.value] + tail)[1..] == tail;
      }
    }
  }

  predicate AllPlain(keys: seq<string>) {
    forall i :: 0 <= i < |keys| ==> Plain(keys[i])
  }

  predicate Ascending(keys: seq<string>) {
    forall i :: 0 <= i < |keys| - 1 ==> Less(keys[i], keys[i + 1])
  }

  predicate Good(v: Value) {
    WellFormed(v) && Sorted(v)
  }

  predicate AllGood(values: seq<Value>) {
    forall i :: 0 <= i < |values| ==> Good(values[i])
  }

  lemma {:induction false} BuildIsCanonical(keys: seq<string>, values: seq<Value>)
    requires |keys| == |values| && AllPlain(keys) && Ascending(keys) && AllGood(values)
    ensures Canonical(Build(keys, values))
  {
    if keys != [] {
      hide Plain, Less, WellFormed, Sorted;
      assert forall i :: 0 <= i < |keys[1..]| ==> keys[1..][i] == keys[i + 1];
      BuildIsCanonical(keys[1..], values[1..]);
      assert Plain(keys[0]) && Good(values[0]);
      if |keys| > 1 {
        assert Less(keys[0], keys[0 + 1]);
        assert Build(keys[1..], values[1..]).key == keys[1];
      }
    }
  }

  function Text(keys: seq<string>, values: seq<Value>): string
    requires |keys| == |values|
  {
    Encode(Obj(Build(keys, values)))
  }

  /** The values of a payload that is the canonical encoding of an object with these keys. */
  function ReadRecord(payload: string, keys: seq<string>): (values: Option<seq<Value>>)
    ensures values.Some? ==> |values.value| == |keys|
  {
    match Decode(payload)
    case None => None
    case Some(m) => Take(m, keys)
  }

  /** Reading a record accepts exactly its own text. */
  lemma ReadIsExact(payload: string, keys: seq<string>, values: seq<Value>)
    requires |keys| == |values| && AllPlain(keys) && Ascending(keys)
    ensures AllGood(values) && payload == Text(keys, values) ==> ReadRecord(payload, keys) == Some(values)
    ensures ReadRecord(payload, keys) == Some(values) ==> payload == Text(keys, values)
  {
    hide AllPlain, Ascending, AllGood, Encode, Take;
    DecodeIsExact(payload, Build(keys, values));
    TakeIsExact(Build(keys, values), keys, values);
    if AllGood(values) { BuildIsCanonical(keys, values); }
    if ReadRecord(payload, keys) == Some(values) {
      var m := Decode(payload).value;
      DecodeIsExact(payload, m);
      TakeIsExact(m, keys, values);
    }
  }

  /** A record cut short is not a record. */
  lemma TornIsNotARecord(keys: seq<string>, values: seq<Value>, n: nat, others: seq<string>)
    requires |keys| == |values| && AllPlain(keys) && Ascending(keys) && AllGood(values)
    requires n < |Text(keys, values)|
    ensures ReadRecord(Text(keys, values)[..n], others) == None
  {
    hide AllPlain, Ascending, AllGood, Take;
    DecodeIsExact(Text(keys, values), Build(keys, values));
    BuildIsCanonical(keys, values);
    TornIsNotADocument(Text(keys, values), n);
  }

  // ---- Members by name ----

  function Lookup(m: Members, key: string): Option<Value> {
    match m
    case Nil => None
    case Member(k, v, rest) => if k == key then Some(v) else Lookup(rest, key)
  }

  /** The object without its first member of that name. */
  function Without(m: Members, key: string): Members {
    match m
    case Nil => Nil
    case Member(k, v, rest) => if k == key then rest else Member(k, v, Without(rest, key))
  }

  lemma {:induction false} LookupAt(keys: seq<string>, values: seq<Value>, i: nat)
    requires |keys| == |values| && i < |keys| && keys[i] !in keys[..i]
    ensures Lookup(Build(keys, values), keys[i]) == Some(values[i])
    decreases i
  {
    if i > 0 {
      assert keys[..i][0] == keys[0] && keys[1..][..i - 1] == keys[..i][1..];
      LookupAt(keys[1..], values[1..], i - 1);
    }
  }

  lemma {:induction false} WithoutAt(keys: seq<string>, values: seq<Value>, i: nat)
    requires |keys| == |values| && i < |keys| && keys[i] !in keys[..i]
    ensures Without(Build(keys, values), keys[i]) == Build(keys[..i] + keys[i + 1..], values[..i] + values[i + 1..])
    decreases i
  {
    var otherKeys, otherValues := keys[..i] + keys[i + 1..], values[..i] + values[i + 1..];
    if i > 0 {
      assert keys[..i][0] == keys[0] && keys[1..][..i - 1] == keys[..i][1..];
      WithoutAt(keys[1..], values[1..], i - 1);
      assert otherKeys[1..] == keys[1..][..i - 1] + keys[1..][i..];
      assert otherValues[1..] == values[1..][..i - 1] + values[1..][i..];
    } else {
      assert otherKeys == keys[1..] && otherValues == values[1..];
    }
  }

  /** A text determines the values of its record. */
  lemma TextDetermines(keys: seq<string>, a: seq<Value>, b: seq<Value>)
    requires |keys| == |a| == |b| && AllPlain(keys) && Ascending(keys) && AllGood(a) && AllGood(b)
    requires Text(keys, a) == Text(keys, b)
    ensures a == b
  {
    ReadIsExact(Text(keys, a), keys, a);
    ReadIsExact(Text(keys, a), keys, b);
    hide AllPlain, Ascending, AllGood, Text, ReadRecord;
  }

  // ---- Lengths ----

  lemma OneMore(each: nat, n: nat)
    ensures each * (n + 1) == each + each * n
  {
  }

  lemma {:induction false} TextLength(keys: seq<string>, values: seq<Value>, each: nat)
    requires |keys| == |values|
    requires forall i :: 0 <= i < |keys| ==> |keys[i]| + |Encode(values[i])| <= each
    ensures |EncodeMembers(Build(keys, values))| <= (each + 4) * |keys|
  {
    if keys != [] {
      forall i | 0 <= i < |keys[1..]| ensures |keys[1..][i]| + |Encode(values[1..][i])| <= each {
        assert keys[1..][i] == keys[i + 1] && values[1..][i] == values[i + 1];
      }
      TextLength(keys[1..], values[1..], each);
      var rest := Build(keys[1..], values[1..]);
      EncodedMember(keys[0], values[0], rest);
      hide EncodeMembers, Encode, Build;
      assert |Pair(keys[0], values[0])| == |keys[0]| + 3 + |Encode(values[0])|;
      assert |keys[0]| + |Encode(values[0])| <= each;
      OneMore(each + 4, |keys| - 1);
    }
  }
}
