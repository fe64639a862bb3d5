/** Records as the JSON a client sees. Links and byte strings, which JSON has no
    syntax for, are objects of one reserved key. */
module Json {
  import opened Data

  datatype Value =
    | JNull
    | JBool(held: bool)
    | JInteger(int)
    | JFraction
    | JString(text: Key)
    | JArray(items: seq<Value>)
    | JObject(fields: map<Key, Value>)

  const LINK: Key := Ascii("$link")
  const BYTES: Key := Ascii("$bytes")

  /** CIDs and byte strings as text, left arbitrary but for `Faithful`. Many
      texts may read as one CID or one byte string. */
  const ShowCid: Cid -> Key
  const ParseCid: Key -> Option<Cid>
  const Base64: seq<byte> -> Key
  const Unbase64: Key -> Option<seq<byte>>

  ghost predicate Faithful() {
    (forall c :: ParseCid(ShowCid(c)) == Some(c)) && (forall b :: Unbase64(Base64(b)) == Some(b))
  }

  predicate Fits64(n: int) {
    -0x8000_0000_0000_0000 <= n < 0x8000_0000_0000_0000
  }

  function Tagged(key: Key, held: Key): Value {
    JObject(map[key := JString(held)])
  }

  /** Objects `FromJson` does not read as maps. */
  predicate Reserved<T>(fields: map<Key, T>) {
    |fields| == 1 && (LINK in fields || BYTES in fields)
  }

  /** Data to JSON. `None` where no JSON is right for it: a float, or an
      integer wider than 64 bits. */
  function ToJson(v: Ipld): Option<Value> {
    match v
    case Null => Some(JNull)
    case Bool(held) => Some(JBool(held))
    case Integer(n) => if Fits64(n) then Some(JInteger(n)) else None
    case Float => None
    case Text(text) => Some(JString(text))
    case Bytes(bytes) => Some(Tagged(BYTES, Base64(bytes)))
    case List(items) =>
      if forall i | 0 <= i < |items| :: ToJson(items[i]).Some? then
        Some(JArray(seq(|items|, i requires 0 <= i < |items| => ToJson(items[i]).value)))
      else None
    case Map(fields) =>
      if forall k | k in fields :: ToJson(fields[k]).Some? then
        Some(JObject(map k | k in fields :: ToJson(fields[k]).value))
      else None
    case Link(cid) => Some(Tagged(LINK, ShowCid(cid)))
  }

  /** JSON to data, or `None` where it is refused. */
  function FromJson(j: Value): Option<Ipld> {
    match j
    case JNull => Some(Null)
    case JBool(held) => Some(Bool(held))
    case JInteger(n) => if Fits64(n) then Some(Integer(n)) else None
    case JFraction => None
    case JString(text) => Some(Text(text))
    case JArray(items) =>
      if forall i | 0 <= i < |items| :: FromJson(items[i]).Some? then
        Some(List(seq(|items|, i requires 0 <= i < |items| => FromJson(items[i]).value)))
      else None
    case JObject(fields) =>
      if |fields| == 1 && LINK in fields then
        if fields[LINK].JString? && ParseCid(fields[LINK].text).Some? then
          Some(Link(ParseCid(fields[LINK].text).value))
        else None
      else if |fields| == 1 && BYTES in fields then
        if fields[BYTES].JString? && Unbase64(fields[BYTES].text).Some? then
          Some(Bytes(Unbase64(fields[BYTES].text).value))
        else None
      else if forall k | k in fields :: FromJson(fields[k]).Some? then
        Some(Map(map k | k in fields :: FromJson(fields[k]).value))
      else None
  }

  /** Whether some JSON is a value's: the same shape all the way down, with a
      link or a byte string as an object of the one key that stands for it. */
  predicate Shows(j: Value, v: Ipld)
    decreases j
  {
    match j
    case JNull => v == Null
    case JBool(held) => v == Bool(held)
    case JInteger(n) => v == Integer(n)
    case JFraction => false
    case JString(text) => v == Text(text)
    case JArray(items) =>
      v.List? && |v.items| == |items| && forall i | 0 <= i < |items| :: Shows(items[i], v.items[i])
    case JObject(fields) =>
      match v
      case Link(cid) => fields.Keys == {Ascii("$link")} && TextOf(fields, Ascii("$link"), ParseCid) == Some(cid)
      case Bytes(bytes) => fields.Keys == {Ascii("$bytes")} && TextOf(fields, Ascii("$bytes"), Unbase64) == Some(bytes)
      case Map(held) => fields.Keys == held.Keys && forall k | k in fields :: Shows(fields[k], held[k])
      case _ => false
  }

  function TextOf<T>(fields: map<Key, Value>, key: Key, read: Key -> Option<T>): Option<T> {
    if key in fields && fields[key].JString? then read(fields[key].text) else None
  }

  /** Whatever is read is what the JSON shows. */
  lemma {:induction false} ReadsAsShown(j: Value)
    requires FromJson(j).Some?
    ensures Shows(j, FromJson(j).value)
  {
    TagsApart();
    if j.JArray? {
      forall i | 0 <= i < |j.items| ensures Shows(j.items[i], FromJson(j.items[i]).value) {
        ReadsAsShown(j.items[i]);
      }
    } else if j.JObject? {
      OneKey(j.fields, LINK);
      OneKey(j.fields, BYTES);
      if !Reserved(j.fields) {
        forall k | k in j.fields ensures Shows(j.fields[k], FromJson(j.fields[k]).value) {
          ReadsAsShown(j.fields[k]);
        }
      }
    }
  }

  /** Whatever is shown shows what it is of, and it is anything but a float or
      an integer of more than 64 bits, at any depth. */
  lemma {:induction false} ShownShows(v: Ipld)
    requires Faithful()
    ensures ToJson(v).Some? <==> Showable(v)
    ensures ToJson(v).Some? ==> Shows(ToJson(v).value, v)
  {
    TagsApart();
    if v.List? {
      forall i | 0 <= i < |v.items|
        ensures ToJson(v.items[i]).Some? <==> Showable(v.items[i])
        ensures ToJson(v.items[i]).Some? ==> Shows(ToJson(v.items[i]).value, v.items[i])
      {
        ShownShows(v.items[i]);
      }
    } else if v.Map? {
      forall k | k in v.fields
        ensures ToJson(v.fields[k]).Some? <==> Showable(v.fields[k])
        ensures ToJson(v.fields[k]).Some? ==> Shows(ToJson(v.fields[k]).value, v.fields[k])
      {
        ShownShows(v.fields[k]);
      }
    }
  }

  predicate Showable(v: Ipld) {
    match v
    case Integer(n) => -0x8000_0000_0000_0000 <= n < 0x8000_0000_0000_0000
    case Float => false
    case List(items) => forall i | 0 <= i < |items| :: Showable(items[i])
    case Map(fields) => forall k | k in fields :: Showable(fields[k])
    case _ => true
  }

  /** Data JSON can carry: whole numbers of 64 bits, and no map that would be
      taken for a link or a byte string. */
  predicate Carried(v: Ipld) {
    match v
    case Integer(n) => Fits64(n)
    case Float => false
    case List(items) => forall i | 0 <= i < |items| :: Carried(items[i])
    case Map(fields) => !Reserved(fields) && forall k | k in fields :: Carried(fields[k])
    case _ => true
  }

  lemma TagsApart()
    ensures LINK != BYTES
  {
    assert |LINK| == 5 && |BYTES| == 6;
  }

  /** What a client may write: whole numbers of 64 bits and no fraction
      anywhere, and under a reserved key on its own nothing but text that names
      a CID or spells some bytes. */
  predicate Acceptable(j: Value) {
    match j
    case JInteger(n) => -0x8000_0000_0000_0000 <= n < 0x8000_0000_0000_0000
    case JFraction => false
    case JArray(items) => forall i | 0 <= i < |items| :: Acceptable(items[i])
    case JObject(fields) =>
      if fields.Keys == {Ascii("$link")} then
        fields[Ascii("$link")].JString? && ParseCid(fields[Ascii("$link")].text).Some?
      else if fields.Keys == {Ascii("$bytes")} then
        fields[Ascii("$bytes")].JString? && Unbase64(fields[Ascii("$bytes")].text).Some?
      else forall k | k in fields :: Acceptable(fields[k])
    case _ => true
  }

  lemma OneKey<T>(fields: map<Key, T>, key: Key)
    ensures fields.Keys == {key} <==> |fields| == 1 && key in fields
  {
    if |fields| == 1 && key in fields {
      assert |fields.Keys - {key}| == 0;
      assert fields.Keys == {key} + (fields.Keys - {key});
    }
  }

  /** What is accepted is exactly that. */
  lemma {:induction false} AcceptsExactly(j: Value)
    ensures FromJson(j).Some? <==> Acceptable(j)
  {
    if j.JArray? {
      forall i | 0 <= i < |j.items| ensures FromJson(j.items[i]).Some? <==> Acceptable(j.items[i]) {
        AcceptsExactly(j.items[i]);
      }
    } else if j.JObject? {
      OneKey(j.fields, LINK);
      OneKey(j.fields, BYTES);
      forall k | k in j.fields ensures FromJson(j.fields[k]).Some? <==> Acceptable(j.fields[k]) {
        AcceptsExactly(j.fields[k]);
      }
    }
  }

  /** Whatever a client may write is data JSON can carry. */
  lemma {:induction false} AcceptedIsCarried(j: Value)
    requires FromJson(j).Some?
    ensures Carried(FromJson(j).value)
  {
    TagsApart();
    if j.JArray? {
      forall i | 0 <= i < |j.items| ensures Carried(FromJson(j.items[i]).value) {
        AcceptedIsCarried(j.items[i]);
      }
    } else if j.JObject? && !Reserved(j.fields) {
      forall k | k in j.fields ensures Carried(FromJson(j.fields[k]).value) {
        AcceptedIsCarried(j.fields[k]);
      }
      var v := FromJson(j).value;
      assert v.fields.Keys == j.fields.Keys;
      SameSize(v.fields, j.fields);
    }
  }

  lemma SameSize<A, B>(a: map<Key, A>, b: map<Key, B>)
    requires a.Keys == b.Keys
    ensures |a| == |b|
  {
    assert |a| == |a.Keys| && |b| == |b.Keys|;
  }

  /** Data JSON can carry comes back from it as it was. */
  lemma {:induction false} CarriedComesBack(v: Ipld)
    requires Faithful() && Carried(v)
    ensures ToJson(v).Some? && FromJson(ToJson(v).value) == Some(v)
  {
    TagsApart();
    if v.List? {
      forall i | 0 <= i < |v.items|
        ensures ToJson(v.items[i]).Some? && FromJson(ToJson(v.items[i]).value) == Some(v.items[i])
      {
        CarriedComesBack(v.items[i]);
      }
      ListComesBack(v.items);
    } else if v.Map? {
      forall k | k in v.fields
        ensures ToJson(v.fields[k]).Some? && FromJson(ToJson(v.fields[k]).value) == Some(v.fields[k])
      {
        CarriedComesBack(v.fields[k]);
      }
      MapComesBack(v.fields);
    }
  }

  lemma ListComesBack(items: seq<Ipld>)
    requires forall i :: 0 <= i < |items| ==>
               ToJson(items[i]).Some? && FromJson(ToJson(items[i]).value) == Some(items[i])
    ensures ToJson(List(items)).Some? && FromJson(ToJson(List(items)).value) == Some(List(items))
  {
    var shown := seq(|items|, i requires 0 <= i < |items| => ToJson(items[i]).value);
    assert ToJson(List(items)).value.items == shown;
    assert FromJson(JArray(shown)).value.items == items;
  }

  lemma MapComesBack(fields: map<Key, Ipld>)
    requires !Reserved(fields)
    requires forall k :: k in fields ==> ToJson(fields[k]).Some? && FromJson(ToJson(fields[k]).value) == Some(fields[k])
    ensures ToJson(Map(fields)).Some? && FromJson(ToJson(Map(fields)).value) == Some(Map(fields))
  {
    var shown := map k | k in fields :: ToJson(fields[k]).value;
    assert ToJson(Map(fields)) == Some(JObject(shown));
    SameSize(fields, shown);
    assert !Reserved(shown);
    assert FromJson(JObject(shown)).value.fields == fields;
  }

  /** And nothing else does: what is shown of a value reads back as that value
      exactly when JSON can carry it. */
  lemma OnlyCarriedComesBack(v: Ipld)
    requires ToJson(v).Some? && FromJson(ToJson(v).value) == Some(v)
    ensures Carried(v)
  {
    AcceptedIsCarried(ToJson(v).value);
  }

  /** The round trip from JSON: whatever is accepted can be shown, and is
      accepted again as what it was. */
  lemma RoundTrip(j: Value)
    requires Faithful() && FromJson(j).Some?
    ensures ToJson(FromJson(j).value).Some? && FromJson(ToJson(FromJson(j).value).value) == FromJson(j)
  {
    AcceptedIsCarried(j);
    CarriedComesBack(FromJson(j).value);
  }

  /** A map of one reserved key is shown as the thing it is not. */
  lemma ReservedDoesNot(text: Key)
    ensures ToJson(Map(map[LINK := Text(text)])) == Some(Tagged(LINK, text))
    ensures FromJson(Tagged(LINK, text)) != Some(Map(map[LINK := Text(text)]))
  {
    assert ToJson(Text(text)) == Some(JString(text));
    var m := map[LINK := Text(text)];
    assert ToJson(Map(m)).value.fields == map[LINK := JString(text)];
  }
}
