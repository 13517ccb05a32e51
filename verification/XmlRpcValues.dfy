/** Conversion of values to XML-RPC and back. Lists and structures are built
    element by element; a structure on the XML side is a sorted map. */
module XmlRpcValues {
  import opened Options

  /** A field of a structure, or a member of a map. */
  datatype Pair<+T> = Pair(key: string, value: T)

  /** Durations and times are in milliseconds. An array is a list or a structure, whose fields keep
      the order in which they were added. */
  datatype TypedValue =
    | Uninitialized
    | Bool(b: bool)
    | Integer(i: int)
    | Floating(r: real)
    | Text(s: string)
    | Duration(millis: int)
    | Time(instant: nat)
    | Instance(id: string)
    | List(items: seq<TypedValue>)
    | Struct(fields: seq<Pair<TypedValue>>)

  /** The types of XmlRpcValue; a date is given by its seconds, the members of a structure by the
      order in which a sorted map visits them. */
  datatype Xml =
    | Invalid
    | XBool(b: bool)
    | XInt(i: int)
    | XDouble(r: real)
    | XText(s: string)
    | XDate(seconds: nat)
    | XBase64
    | XArray(items: seq<Xml>)
    | XStruct(members: seq<Pair<Xml>>)

  /** The order of std::string. */
  predicate Less(a: string, b: string) {
    b != [] && (a == [] || a[0] < b[0] || (a[0] == b[0] && Less(a[1..], b[1..])))
  }

  lemma {:induction false} LessIsTotal(a: string, b: string)
    ensures Less(a, b) || Less(b, a) || a == b
    ensures !(Less(a, b) && Less(b, a)) && !Less(a, a)
  {
    if a != [] && b != [] && a[0] == b[0] {
      LessIsTotal(a[1..], b[1..]);
      LessIsTotal(a[1..], a[1..]);
      assert a == [a[0]] + a[1..] && b == [b[0]] + b[1..];
    } else if a != [] {
      LessIsTotal(a[1..], a[1..]);
    }
  }

  /** After k common characters the first string ends, or has the smaller character. */
  predicate DifferAt(a: string, b: string, k: nat) {
    k <= |a| && k < |b| && a[..k] == b[..k] && (k < |a| ==> a[k] < b[k])
  }

  lemma {:induction false} LessDiffers(a: string, b: string) returns (k: nat)
    requires Less(a, b)
    ensures DifferAt(a, b, k)
  {
    if a == [] || a[0] < b[0] {
      k := 0;
    } else {
      var j := LessDiffers(a[1..], b[1..]);
      k := j + 1;
      assert a[..k] == [a[0]] + a[1..][..j] && b[..k] == [b[0]] + b[1..][..j];
    }
  }

  lemma {:induction false} DiffersLess(a: string, b: string, k: nat)
    requires DifferAt(a, b, k)
    ensures Less(a, b)
  {
    if k > 0 {
      assert a[0] == a[..k][0] == b[..k][0] == b[0];
      assert a[1..][..k - 1] == a[..k][1..] && b[1..][..k - 1] == b[..k][1..];
      DiffersLess(a[1..], b[1..], k - 1);
    }
  }

  /** The first character that differs decides. */
  lemma LessExactlyWhen(a: string, b: string)
    ensures Less(a, b) <==> exists k: nat :: DifferAt(a, b, k)
  {
    if Less(a, b) {
      var k := LessDiffers(a, b);
    }
    if k: nat :| DifferAt(a, b, k) {
      DiffersLess(a, b, k);
    }
  }

  lemma {:induction false} LessIsTransitive(a: string, b: string, c: string)
    requires Less(a, b) && Less(b, c)
    ensures Less(a, c)
  {
    if a != [] && a[0] == b[0] && b[0] == c[0] {
      LessIsTransitive(a[1..], b[1..], c[1..]);
    }
  }

  predicate Sorted<T>(members: seq<Pair<T>>) {
    forall i, j :: 0 <= i < j < |members| ==> Less(members[i].key, members[j].key)
  }

  /** Where a key stands or belongs: the number of members with a smaller one. */
  function Place<T>(members: seq<Pair<T>>, key: string): (k: nat)
    ensures k <= |members|
    ensures forall i :: 0 <= i < k ==> Less(members[i].key, key)
    ensures k < |members| ==> !Less(members[k].key, key)
  {
    if members == [] || !Less(members[0].key, key) then 0 else 1 + Place(members[1..], key)
  }

  /** Assignment to a member of a sorted map. */
  function Put<T>(members: seq<Pair<T>>, key: string, value: T): seq<Pair<T>> {
    var k := Place(members, key);
    if k < |members| && members[k].key == key then members[k := Pair(key, value)]
    else members[..k] + [Pair(key, value)] + members[k..]
  }

  /** The value of a key in a sorted map. */
  function Get<T>(members: seq<Pair<T>>, key: string): Option<T> {
    var k := Place(members, key);
    if k < |members| && members[k].key == key then Some(members[k].value) else None
  }

  // ---------------------------------------------------------------------------
  // To XML
  // ---------------------------------------------------------------------------

  /** typedval2xml_API; None where it throws. */
  function ToXml(v: TypedValue): Option<Xml>
    decreases v, 1, 0
  {
    match v
    case Uninitialized => Some(Invalid)
    case Bool(b) => Some(XInt(if b then 1 else 0))
    case Integer(i) => Some(XInt(i))
    case Floating(r) => Some(XDouble(r))
    case Text(s) => Some(XText(s))
    case Duration(millis) => Some(XDouble(millis as real / 1000.0))
    case Time(t) => Some(XArray([XInt(t / 1000), XInt(t % 1000)]))
    case Instance(id) => Some(XText(id))
    case List(items) =>
      if items == [] || ItemsToXml(v, |items|).None? then None
      else Some(XArray(ItemsToXml(v, |items|).value))
    case Struct(fields) =>
      if fields == [] || FieldsToXml(v, |fields|).None? then None
      else Some(XStruct(FieldsToXml(v, |fields|).value))
  }

  /** The first n items of a list. */
  function ItemsToXml(v: TypedValue, n: nat): (r: Option<seq<Xml>>)
    requires v.List? && n <= |v.items|
    ensures r.Some? ==> |r.value| == n
    decreases v, 0, n
  {
    if n == 0 then Some([])
    else
      var front, last := ItemsToXml(v, n - 1), ToXml(v.items[n - 1]);
      if front.None? || last.None? then None else Some(front.value + [last.value])
  }

  /** The map after the first n fields of a structure have been assigned. */
  function FieldsToXml(v: TypedValue, n: nat): Option<seq<Pair<Xml>>>
    requires v.Struct? && n <= |v.fields|
    decreases v, 0, n
  {
    if n == 0 then Some([])
    else
      var front, last := FieldsToXml(v, n - 1), ToXml(v.fields[n - 1].value);
      if front.None? || last.None? then None else Some(Put(front.value, v.fields[n - 1].key, last.value))
  }

  lemma {:induction false} NoItemsToXml(v: TypedValue, n: nat)
    requires v.List? && n <= |v.items| && ItemsToXml(v, n).None?
    ensures ItemsToXml(v, |v.items|).None?
    decreases |v.items| - n
  {
    if n < |v.items| {
      NoItemsToXml(v, n + 1);
    }
  }

  lemma {:induction false} NoFieldsToXml(v: TypedValue, n: nat)
    requires v.Struct? && n <= |v.fields| && FieldsToXml(v, n).None?
    ensures FieldsToXml(v, |v.fields|).None?
    decreases |v.fields| - n
  {
    if n < |v.fields| {
      NoFieldsToXml(v, n + 1);
    }
  }

  method TypedValToXml(v: TypedValue) returns (x: Option<Xml>)
    ensures x == ToXml(v)
    decreases v
  {
    match v
    case Uninitialized => return Some(Invalid);
    case Bool(b) => return Some(XInt(if b then 1 else 0));
    case Integer(i) => return Some(XInt(i));
    case Floating(r) => return Some(XDouble(r));
    case Text(s) => return Some(XText(s));
    case Duration(millis) => return Some(XDouble(millis as real / 1000.0));
    case Time(t) =>
      var parts: seq<Xml> := [];
      parts := parts + [XInt(t / 1000)];
      parts := parts + [XInt(t % 1000)];
      assert parts == [XInt(t / 1000), XInt(t % 1000)];
      return Some(XArray(parts));
    case Instance(id) => return Some(XText(id));
    case List(items) =>
      var elements: seq<Xml> := [];
      for k := 0 to |items|
        invariant ItemsToXml(v, k) == Some(elements)
      {
        var element := TypedValToXml(items[k]);
        if element.None? {
          NoItemsToXml(v, k + 1);
          return None;
        }
        elements := elements + [element.value];
      }
      return if elements == [] then None else Some(XArray(elements));
    case Struct(fields) =>
      var members: seq<Pair<Xml>> := [];
      for k := 0 to |fields|
        invariant FieldsToXml(v, k) == Some(members)
        invariant k > 0 ==> members != []
      {
        var element := TypedValToXml(fields[k].value);
        if element.None? {
          NoFieldsToXml(v, k + 1);
          return None;
        }
        members := Put(members, fields[k].key, element.value);
      }
      return if members == [] then None else Some(XStruct(members));
  }

  // ---------------------------------------------------------------------------
  // From XML
  // ---------------------------------------------------------------------------

  /** xml2typedval_API */
  function FromXml(x: Xml): TypedValue
    decreases x, 1, 0
  {
    match x
    case Invalid => Uninitialized
    case XBool(b) => Bool(b)
    case XInt(i) => Integer(i)
    case XDouble(r) => Floating(r)
    case XText(s) => Text(s)
    case XDate(seconds) => Time(1000 * seconds)
    case XBase64 => Uninitialized
    case XArray(items) => List(ItemsFromXml(x, |items|))
    case XStruct(members) => Struct(FieldsFromXml(x, |members|))
  }

  function ItemsFromXml(x: Xml, n: nat): (r: seq<TypedValue>)
    requires x.XArray? && n <= |x.items|
    ensures |r| == n
    ensures forall k :: 0 <= k < n ==> r[k] == FromXml(x.items[k])
    decreases x, 0, n
  {
    if n == 0 then [] else ItemsFromXml(x, n - 1) + [FromXml(x.items[n - 1])]
  }

  function FieldsFromXml(x: Xml, n: nat): (r: seq<Pair<TypedValue>>)
    requires x.XStruct? && n <= |x.members|
    ensures |r| == n
    ensures forall k :: 0 <= k < n ==> r[k] == Pair(x.members[k].key, FromXml(x.members[k].value))
    decreases x, 0, n
  {
    if n == 0 then []
    else FieldsFromXml(x, n - 1) + [Pair(x.members[n - 1].key, FromXml(x.members[n - 1].value))]
  }

  /** What every map of strings satisfies, at every depth. */
  predicate IsXml(x: Xml)
    decreases x
  {
    match x
    case XArray(items) => forall i :: 0 <= i < |items| ==> IsXml(items[i])
    case XStruct(members) => Sorted(members) && forall i :: 0 <= i < |members| ==> IsXml(members[i].value)
    case _ => true
  }

  /** ListOVal::add by name: an existing element with that name takes the value. */
  function Add(fields: seq<Pair<TypedValue>>, key: string, value: TypedValue): seq<Pair<TypedValue>> {
    if fields == [] then [Pair(key, value)]
    else if fields[0].key == key then [Pair(key, value)] + fields[1..]
    else [fields[0]] + Add(fields[1..], key, value)
  }

  lemma {:induction false} AddNew(fields: seq<Pair<TypedValue>>, key: string, value: TypedValue)
    requires forall f <- fields :: f.key != key
    ensures Add(fields, key, value) == fields + [Pair(key, value)]
  {
    if fields != [] {
      AddNew(fields[1..], key, value);
      assert fields == [fields[0]] + fields[1..];
    }
  }

  method XmlToTypedVal(x: Xml) returns (v: TypedValue)
    requires IsXml(x)
    ensures v == FromXml(x)
    decreases x
  {
    match x
    case Invalid => return Uninitialized;
    case XBool(b) => return Bool(b);
    case XInt(i) => return Integer(i);
    case XDouble(r) => return Floating(r);
    case XText(s) => return Text(s);
    case XDate(seconds) => return Time(1000 * seconds);
    case XBase64 => return Uninitialized;
    case XArray(items) =>
      var elements: seq<TypedValue> := [];
      for k := 0 to |items|
        invariant elements == ItemsFromXml(x, k)
      {
        var element := XmlToTypedVal(items[k]);
        elements := elements + [element];
      }
      return List(elements);
    case XStruct(members) =>
      var fields: seq<Pair<TypedValue>> := [];
      for k := 0 to |members|
        invariant fields == FieldsFromXml(x, k)
      {
        var element := XmlToTypedVal(members[k].value);
        KeysBefore(x, k);
        AddNew(fields, members[k].key, element);
        fields := Add(fields, members[k].key, element);
      }
      return Struct(fields);
  }

  lemma KeysBefore(x: Xml, k: nat)
    requires x.XStruct? && Sorted(x.members) && k < |x.members|
    ensures forall f <- FieldsFromXml(x, k) :: f.key != x.members[k].key
  {
    forall i | 0 <= i < k
      ensures x.members[i].key != x.members[k].key
    {
      LessIsTotal(x.members[i].key, x.members[k].key);
    }
  }

  // ---------------------------------------------------------------------------
  // Sorted maps
  // ---------------------------------------------------------------------------

  lemma KeysAround<T>(members: seq<Pair<T>>, key: string)
    requires Sorted(members)
    ensures var k := Place(members, key);
            && (forall i :: 0 <= i < k ==> Less(members[i].key, key))
            && (forall i :: k < i < |members| ==> Less(key, members[i].key))
            && (k < |members| ==> members[k].key == key || Less(key, members[k].key))
  {
    var k := Place(members, key);
    if k < |members| {
      LessIsTotal(members[k].key, key);
      forall i | k < i < |members|
        ensures Less(key, members[i].key)
      {
        if members[k].key != key {
          LessIsTransitive(key, members[k].key, members[i].key);
        }
      }
    }
  }

  lemma PlaceIs<T>(members: seq<Pair<T>>, key: string, k: nat)
    requires k <= |members|
    requires forall i :: 0 <= i < k ==> Less(members[i].key, key)
    requires k < |members| ==> !Less(members[k].key, key)
    ensures Place(members, key) == k
  {
  }

  lemma SortedAfterPut<T>(members: seq<Pair<T>>, key: string, value: T)
    requires Sorted(members)
    ensures Sorted(Put(members, key, value))
  {
    KeysAround(members, key);
  }

  /** The value of a key is the value of the one member with that key. */
  lemma GetIs<T>(members: seq<Pair<T>>, key: string, i: nat)
    requires Sorted(members) && i < |members| && members[i].key == key
    ensures Get(members, key) == Some(members[i].value)
  {
    KeysAround(members, key);
    LessIsTotal(key, key);
  }

  lemma GetIsNone<T>(members: seq<Pair<T>>, key: string)
    requires forall m <- members :: m.key != key
    ensures Get(members, key) == None
  {
  }

  ghost predicate Free<T>(members: seq<Pair<T>>, key: string) {
    forall m <- members :: m.key != key
  }

  lemma OthersAreFree<T>(members: seq<Pair<T>>, key: string)
    requires Sorted(members)
    ensures var k := Place(members, key);
            && Free(members[..k], key)
            && (k < |members| && members[k].key == key ==> Free(members[k + 1..], key))
            && (k < |members| && members[k].key != key ==> Free(members[k..], key))
  {
    KeysAround(members, key);
    LessIsTotal(key, key);
  }

  lemma MembersReplaced<T>(left: seq<Pair<T>>, p: seq<Pair<T>>, right: seq<Pair<T>>, q: Pair<T>, m: Pair<T>)
    requires Free(left, q.key) && Free(right, q.key) && forall old' <- p :: old'.key == q.key
    ensures m in left + [q] + right <==> m == q || (m in left + p + right && m.key != q.key)
  {
  }

  /** An assignment replaces the member with the key, or stands between two others. */
  lemma PutParts<T>(members: seq<Pair<T>>, key: string, value: T)
    returns (left: seq<Pair<T>>, old': seq<Pair<T>>, right: seq<Pair<T>>)
    requires Sorted(members)
    ensures members == left + old' + right && Put(members, key, value) == left + [Pair(key, value)] + right
    ensures Free(left, key) && Free(right, key) && |old'| <= 1 && forall p <- old' :: p.key == key
  {
    var k := Place(members, key);
    OthersAreFree(members, key);
    left := members[..k];
    if k < |members| && members[k].key == key {
      old', right := [members[k]], members[k + 1..];
    } else {
      old', right := [], members[k..];
    }
  }

  /** The members after an assignment: the new one, and all old ones with other keys. */
  lemma MembersAfterPut<T>(members: seq<Pair<T>>, key: string, value: T, m: Pair<T>)
    requires Sorted(members)
    ensures m in Put(members, key, value) <==> m == Pair(key, value) || (m in members && m.key != key)
  {
    var left, old', right := PutParts(members, key, value);
    MembersReplaced(left, old', right, Pair(key, value), m);
  }

  /** An assignment to a sorted map changes the value of its key and no other. */
  lemma GetAfterPut<T>(members: seq<Pair<T>>, key: string, value: T, other: string)
    requires Sorted(members)
    ensures Get(Put(members, key, value), other) == if other == key then Some(value) else Get(members, other)
  {
    var after := Put(members, key, value);
    SortedAfterPut(members, key, value);
    if m :| m in after && m.key == other {
      MembersAfterPut(members, key, value, m);
      var i :| 0 <= i < |after| && after[i] == m;
      GetIs(after, other, i);
      if other != key {
        var j :| 0 <= j < |members| && members[j] == m;
        GetIs(members, other, j);
      }
    } else {
      MembersAfterPut(members, key, value, Pair(key, value));
      GetIsNone(after, other);
      forall m | m in members
        ensures m.key != other
      {
        MembersAfterPut(members, key, value, m);
      }
      GetIsNone(members, other);
    }
  }

  lemma {:induction false} PlaceByKeys<S, T>(a: seq<Pair<S>>, b: seq<Pair<T>>, key: string)
    requires |a| == |b| && forall i :: 0 <= i < |a| ==> a[i].key == b[i].key
    ensures Place(a, key) == Place(b, key)
  {
    if a != [] && Less(a[0].key, key) {
      PlaceByKeys(a[1..], b[1..], key);
    }
  }

  lemma PutLast<T>(members: seq<Pair<T>>, p: Pair<T>)
    requires Sorted(members + [p])
    ensures Put(members, p.key, p.value) == members + [p]
  {
    var all := members + [p];
    forall i | 0 <= i < |members|
      ensures Less(members[i].key, p.key)
    {
      assert Less(all[i].key, all[|members|].key);
    }
    PlaceIs(members, p.key, |members|);
  }

  // ---------------------------------------------------------------------------
  // Round trips
  // ---------------------------------------------------------------------------

  predicate HasEmptyArray(v: TypedValue)
    decreases v
  {
    match v
    case List(items) => items == [] || exists i :: 0 <= i < |items| && HasEmptyArray(items[i])
    case Struct(fields) => fields == [] || exists i :: 0 <= i < |fields| && HasEmptyArray(fields[i].value)
    case _ => false
  }

  /** The conversion throws exactly on values that contain an empty array, at any depth. */
  lemma {:induction false} ThrowsExactlyWhen(v: TypedValue)
    ensures ToXml(v).None? <==> HasEmptyArray(v)
    decreases v, 1, 0
  {
    match v
    case List(items) => ItemsThrow(v, |items|);
    case Struct(fields) => FieldsThrow(v, |fields|);
    case _ =>
  }

  lemma {:induction false} ItemsThrow(v: TypedValue, n: nat)
    requires v.List? && n <= |v.items|
    ensures ItemsToXml(v, n).None? <==> exists i :: 0 <= i < n && HasEmptyArray(v.items[i])
    decreases v, 0, n
  {
    if n > 0 {
      ItemsThrow(v, n - 1);
      ThrowsExactlyWhen(v.items[n - 1]);
    }
  }

  lemma {:induction false} FieldsThrow(v: TypedValue, n: nat)
    requires v.Struct? && n <= |v.fields|
    ensures FieldsToXml(v, n).None? <==> exists i :: 0 <= i < n && HasEmptyArray(v.fields[i].value)
    decreases v, 0, n
  {
    if n > 0 {
      FieldsThrow(v, n - 1);
      ThrowsExactlyWhen(v.fields[n - 1].value);
    }
  }

  /** What is left of a value after a trip: truth values become integers, durations become
      seconds, times become a list of seconds and milliseconds, instances become their names, and
      the fields of a structure are sorted, the last one of each name surviving. */
  function Erase(v: TypedValue): TypedValue
    decreases v, 1, 0
  {
    match v
    case Bool(b) => Integer(if b then 1 else 0)
    case Duration(millis) => Floating(millis as real / 1000.0)
    case Time(t) => List([Integer(t / 1000), Integer(t % 1000)])
    case Instance(id) => Text(id)
    case List(items) => List(ErasedItems(v, |items|))
    case Struct(fields) => Struct(ErasedFields(v, |fields|))
    case _ => v
  }

  function ErasedItems(v: TypedValue, n: nat): (r: seq<TypedValue>)
    requires v.List? && n <= |v.items|
    ensures |r| == n
    ensures forall k :: 0 <= k < n ==> r[k] == Erase(v.items[k])
    decreases v, 0, n
  {
    if n == 0 then [] else ErasedItems(v, n - 1) + [Erase(v.items[n - 1])]
  }

  function ErasedFields(v: TypedValue, n: nat): seq<Pair<TypedValue>>
    requires v.Struct? && n <= |v.fields|
    decreases v, 0, n
  {
    if n == 0 then [] else Put(ErasedFields(v, n - 1), v.fields[n - 1].key, Erase(v.fields[n - 1].value))
  }

  /** The last of the first n fields with a name. */
  function LastWith(fields: seq<Pair<TypedValue>>, n: nat, key: string): Option<TypedValue>
    requires n <= |fields|
  {
    if n == 0 then None
    else if fields[n - 1].key == key then Some(fields[n - 1].value)
    else LastWith(fields, n - 1, key)
  }

  /** The fields of an erased structure are sorted, and each name has the last value it was given. */
  lemma {:induction false} ErasedFieldsAre(v: TypedValue, n: nat, key: string)
    requires v.Struct? && n <= |v.fields|
    ensures Sorted(ErasedFields(v, n))
    ensures Get(ErasedFields(v, n), key)
         == match LastWith(v.fields, n, key) case None => None case Some(w) => Some(Erase(w))
  {
    if n > 0 {
      ErasedFieldsAre(v, n - 1, key);
      var f := v.fields[n - 1];
      SortedAfterPut(ErasedFields(v, n - 1), f.key, Erase(f.value));
      GetAfterPut(ErasedFields(v, n - 1), f.key, Erase(f.value), key);
    }
  }

  predicate IsRead(members: seq<Pair<Xml>>, fields: seq<Pair<TypedValue>>) {
    |members| == |fields|
    && forall i :: 0 <= i < |members| ==> fields[i] == Pair(members[i].key, FromXml(members[i].value))
  }

  lemma IsReadConcat(a: seq<Pair<Xml>>, b: seq<Pair<Xml>>, c: seq<Pair<TypedValue>>, d: seq<Pair<TypedValue>>)
    requires IsRead(a, c) && IsRead(b, d)
    ensures IsRead(a + b, c + d)
  {
  }

  lemma ReadOfPut(members: seq<Pair<Xml>>, fields: seq<Pair<TypedValue>>, key: string, x: Xml)
    requires IsRead(members, fields)
    ensures IsRead(Put(members, key, x), Put(fields, key, FromXml(x)))
  {
    PlaceByKeys(members, fields, key);
    var k, q, r := Place(members, key), [Pair(key, x)], [Pair(key, FromXml(x))];
    if k < |members| && members[k].key == key {
    } else {
      IsReadConcat(members[..k], q, fields[..k], r);
      IsReadConcat(members[..k] + q, members[k..], fields[..k] + r, fields[k..]);
    }
  }

  lemma FromXmlOfPut(members: seq<Pair<Xml>>, key: string, x: Xml)
    ensures FromXml(XStruct(Put(members, key, x))).fields == Put(FromXml(XStruct(members)).fields, key, FromXml(x))
  {
    var fields := FromXml(XStruct(members)).fields;
    var after, expected := Put(members, key, x), Put(fields, key, FromXml(x));
    ReadOfPut(members, fields, key, x);
    assert FromXml(XStruct(after)).fields == FieldsFromXml(XStruct(after), |after|) == expected;
  }

  /** A trip to XML and back erases the value, whenever it does not throw. */
  lemma {:induction false} RoundTrip(v: TypedValue)
    requires ToXml(v).Some?
    ensures FromXml(ToXml(v).value) == Erase(v)
    decreases v, 1, 0
  {
    match v
    case Time(t) =>
      var x := XArray([XInt(t / 1000), XInt(t % 1000)]);
      assert FromXml(x).items == [FromXml(x.items[0]), FromXml(x.items[1])];
    case List(items) => ItemsRoundTrip(v, |items|);
    case Struct(fields) => FieldsRoundTrip(v, |fields|);
    case _ =>
  }

  lemma {:induction false} ItemsRoundTrip(v: TypedValue, n: nat)
    requires v.List? && n <= |v.items| && ItemsToXml(v, n).Some?
    ensures FromXml(XArray(ItemsToXml(v, n).value)).items == ErasedItems(v, n)
    decreases v, 0, n
  {
    if n > 0 {
      ItemsRoundTrip(v, n - 1);
      RoundTrip(v.items[n - 1]);
      var front, last := ItemsToXml(v, n - 1).value, ToXml(v.items[n - 1]).value;
      assert FromXml(XArray(front + [last])).items == FromXml(XArray(front)).items + [FromXml(last)];
    }
  }

  lemma {:induction false} FieldsRoundTrip(v: TypedValue, n: nat)
    requires v.Struct? && n <= |v.fields| && FieldsToXml(v, n).Some?
    ensures FromXml(XStruct(FieldsToXml(v, n).value)).fields == ErasedFields(v, n)
    decreases v, 0, n
  {
    if n > 0 {
      FieldsRoundTrip(v, n - 1);
      RoundTrip(v.fields[n - 1].value);
      FromXmlOfPut(FieldsToXml(v, n - 1).value, v.fields[n - 1].key, ToXml(v.fields[n - 1].value).value);
    }
  }

  /** XML that uses only the types the conversion writes, and no empty array. */
  predicate Normal(x: Xml)
    decreases x
  {
    match x
    case XBool(_) => false
    case XDate(_) => false
    case XBase64 => false
    case XArray(items) => items != [] && forall i :: 0 <= i < |items| ==> Normal(items[i])
    case XStruct(members) => members != [] && forall i :: 0 <= i < |members| ==> Normal(members[i].value)
    case _ => true
  }

  /** An array or structure without elements, at any depth. */
  predicate HasEmpty(x: Xml)
    decreases x, 1, 0
  {
    match x
    case XArray(items) => items == [] || EmptyItems(x, |items|)
    case XStruct(members) => members == [] || EmptyMembers(x, |members|)
    case _ => false
  }

  predicate EmptyItems(x: Xml, n: nat)
    requires x.XArray? && n <= |x.items|
    decreases x, 0, n
  {
    n > 0 && (EmptyItems(x, n - 1) || HasEmpty(x.items[n - 1]))
  }

  predicate EmptyMembers(x: Xml, n: nat)
    requires x.XStruct? && n <= |x.members|
    decreases x, 0, n
  {
    n > 0 && (EmptyMembers(x, n - 1) || HasEmpty(x.members[n - 1].value))
  }

  /** What is left of XML after a trip: truth values become integers, a date becomes an array of its seconds
      and no milliseconds, and binary data become invalid, at every depth. */
  function Plain(x: Xml): Xml
    decreases x, 1, 0
  {
    match x
    case XBool(b) => XInt(if b then 1 else 0)
    case XDate(seconds) => XArray([XInt(seconds), XInt(0)])
    case XBase64 => Invalid
    case XArray(items) => XArray(PlainItems(x, |items|))
    case XStruct(members) => XStruct(PlainMembers(x, |members|))
    case _ => x
  }

  function PlainItems(x: Xml, n: nat): (r: seq<Xml>)
    requires x.XArray? && n <= |x.items|
    ensures |r| == n && forall i :: 0 <= i < n ==> r[i] == Plain(x.items[i])
    decreases x, 0, n
  {
    if n == 0 then [] else PlainItems(x, n - 1) + [Plain(x.items[n - 1])]
  }

  function PlainMembers(x: Xml, n: nat): (r: seq<Pair<Xml>>)
    requires x.XStruct? && n <= |x.members|
    ensures |r| == n && forall i :: 0 <= i < n ==> r[i] == Pair(x.members[i].key, Plain(x.members[i].value))
    decreases x, 0, n
  {
    if n == 0 then [] else PlainMembers(x, n - 1) + [Pair(x.members[n - 1].key, Plain(x.members[n - 1].value))]
  }

  lemma LeafTrip(x: Xml)
    requires !x.XArray? && !x.XStruct?
    ensures ToXml(FromXml(x)) == Some(Plain(x)) && !HasEmpty(x)
  {
    if x.XDate? {
      DateTrip(x.seconds);
    }
  }

  lemma DateTrip(seconds: nat)
    ensures ToXml(Time(1000 * seconds)) == Some(XArray([XInt(seconds), XInt(0)]))
  {
    assert 1000 * seconds / 1000 == seconds && 1000 * seconds % 1000 == 0;
  }

  lemma ArrayTrip(x: Xml)
    requires x.XArray?
    requires ItemsToXml(FromXml(x), |x.items|)
          == if EmptyItems(x, |x.items|) then None else Some(PlainItems(x, |x.items|))
    ensures ToXml(FromXml(x)) == if HasEmpty(x) then None else Some(Plain(x))
  {
  }

  lemma StructTrip(x: Xml)
    requires x.XStruct?
    requires FieldsToXml(FromXml(x), |x.members|)
          == if EmptyMembers(x, |x.members|) then None else Some(PlainMembers(x, |x.members|))
    ensures ToXml(FromXml(x)) == if HasEmpty(x) then None else Some(Plain(x))
  {
  }

  /** The other round trip: all XML that can be read is written again, unless something in it is empty. */
  lemma {:induction false} TripFromXml(x: Xml)
    requires IsXml(x)
    ensures ToXml(FromXml(x)) == if HasEmpty(x) then None else Some(Plain(x))
    decreases x, 1, 0
  {
    if x.XArray? {
      ItemsTrip(x, |x.items|);
      ArrayTrip(x);
    } else if x.XStruct? {
      MembersTrip(x, |x.members|);
      StructTrip(x);
    } else {
      LeafTrip(x);
    }
  }

  lemma {:induction false} ItemsTrip(x: Xml, n: nat)
    requires IsXml(x) && x.XArray? && n <= |x.items|
    ensures ItemsToXml(FromXml(x), n) == if EmptyItems(x, n) then None else Some(PlainItems(x, n))
    decreases x, 0, n
  {
    if n > 0 {
      ItemsTrip(x, n - 1);
      TripFromXml(x.items[n - 1]);
    }
  }

  /** The first members have the same keys. */
  predicate SameKeys<S, T>(a: seq<Pair<S>>, b: seq<Pair<T>>) {
    |a| <= |b| && forall i :: 0 <= i < |a| ==> a[i].key == b[i].key
  }

  lemma SortedByKeys<S, T>(a: seq<Pair<S>>, b: seq<Pair<T>>)
    requires Sorted(b) && SameKeys(a, b)
    ensures Sorted(a)
  {
  }

  /** The members of a sorted map arrive in order, so that each is put at the end. */
  lemma PutInOrder<S, T>(front: seq<Pair<S>>, key: string, value: S, members: seq<Pair<T>>)
    requires Sorted(members) && SameKeys(front, members) && |front| < |members| && key == members[|front|].key
    ensures Put(front, key, value) == front + [Pair(key, value)]
  {
    SortedByKeys(front + [Pair(key, value)], members);
    PutLast(front, Pair(key, value));
  }

  lemma {:induction false} MembersTrip(x: Xml, n: nat)
    requires IsXml(x) && x.XStruct? && n <= |x.members|
    ensures FieldsToXml(FromXml(x), n) == if EmptyMembers(x, n) then None else Some(PlainMembers(x, n))
    decreases x, 0, n
  {
    if n > 0 {
      MembersTrip(x, n - 1);
      TripFromXml(x.members[n - 1].value);
      PutInOrder(PlainMembers(x, n - 1), x.members[n - 1].key, Plain(x.members[n - 1].value), x.members);
    }
  }

  lemma {:induction false} NormalIsPlain(x: Xml)
    ensures Normal(x) <==> !HasEmpty(x) && Plain(x) == x
    decreases x, 1, 0
  {
    match x
    case XArray(items) =>
      NormalItems(x, |items|);
      assert PlainItems(x, |items|) == items <==> forall i :: 0 <= i < |items| ==> Plain(items[i]) == items[i];
    case XStruct(members) =>
      NormalMembers(x, |members|);
      assert PlainMembers(x, |members|) == members <==>
             forall i :: 0 <= i < |members| ==> Plain(members[i].value) == members[i].value;
    case _ =>
  }

  lemma {:induction false} NormalItems(x: Xml, n: nat)
    requires x.XArray? && n <= |x.items|
    ensures (forall i :: 0 <= i < n ==> Normal(x.items[i])) <==>
            !EmptyItems(x, n) && forall i :: 0 <= i < n ==> Plain(x.items[i]) == x.items[i]
    decreases x, 0, n
  {
    if n > 0 {
      NormalItems(x, n - 1);
      NormalIsPlain(x.items[n - 1]);
    }
  }

  lemma {:induction false} NormalMembers(x: Xml, n: nat)
    requires x.XStruct? && n <= |x.members|
    ensures (forall i :: 0 <= i < n ==> Normal(x.members[i].value)) <==>
            !EmptyMembers(x, n) && forall i :: 0 <= i < n ==> Plain(x.members[i].value) == x.members[i].value
    decreases x, 0, n
  {
    if n > 0 {
      NormalMembers(x, n - 1);
      NormalIsPlain(x.members[n - 1].value);
    }
  }

  /** So it is the same XML exactly if it is normal. */
  lemma XmlRoundTrip(x: Xml)
    requires IsXml(x)
    ensures ToXml(FromXml(x)) == Some(x) <==> Normal(x)
  {
    TripFromXml(x);
    NormalIsPlain(x);
  }

  /** What the conversion writes is normal XML. */
  lemma {:induction false} ToXmlIsNormal(v: TypedValue)
    requires ToXml(v).Some?
    ensures IsXml(ToXml(v).value) && Normal(ToXml(v).value)
    decreases v, 1, 0
  {
    match v
    case List(items) => ItemsAreNormal(v, |items|);
    case Struct(fields) => FieldsAreNormal(v, |fields|);
    case _ =>
  }

  lemma {:induction false} ItemsAreNormal(v: TypedValue, n: nat)
    requires v.List? && n <= |v.items| && ItemsToXml(v, n).Some?
    ensures forall x <- ItemsToXml(v, n).value :: IsXml(x) && Normal(x)
    decreases v, 0, n
  {
    if n > 0 {
      ItemsAreNormal(v, n - 1);
      ToXmlIsNormal(v.items[n - 1]);
    }
  }

  lemma {:induction false} FieldsAreNormal(v: TypedValue, n: nat)
    requires v.Struct? && n <= |v.fields| && FieldsToXml(v, n).Some?
    ensures var members := FieldsToXml(v, n).value;
            Sorted(members) && (n > 0 ==> members != []) && forall m <- members :: IsXml(m.value) && Normal(m.value)
    decreases v, 0, n
  {
    if n > 0 {
      FieldsAreNormal(v, n - 1);
      ToXmlIsNormal(v.fields[n - 1].value);
      NormalAfterPut(FieldsToXml(v, n - 1).value, v.fields[n - 1].key, ToXml(v.fields[n - 1].value).value);
    }
  }

  lemma NormalAfterPut(members: seq<Pair<Xml>>, key: string, x: Xml)
    requires Sorted(members) && (forall m <- members :: IsXml(m.value) && Normal(m.value)) && IsXml(x) && Normal(x)
    ensures var after := Put(members, key, x);
            Sorted(after) && after != [] && forall m <- after :: IsXml(m.value) && Normal(m.value)
  {
    SortedAfterPut(members, key, x);
    forall m | m in Put(members, key, x)
      ensures IsXml(m.value) && Normal(m.value)
    {
      MembersAfterPut(members, key, x, m);
    }
  }

  /** A second trip changes nothing: the erased value is written as the same XML and read back as itself. */
  lemma SecondTrip(v: TypedValue)
    requires ToXml(v).Some?
    ensures ToXml(Erase(v)) == ToXml(v)
    ensures Erase(Erase(v)) == Erase(v)
  {
    RoundTrip(v);
    ToXmlIsNormal(v);
    XmlRoundTrip(ToXml(v).value);
    RoundTrip(Erase(v));
  }
}
