/** What the report's reader gets: the payload's value, with the keys of every object in order. */
module ScriptValues {
  import opened StringOrder
  import opened JsonValue
  import opened ScriptJson
  import opened ScriptUndo

  // ----- equal values -----

  /** Equality of payloads: arrays agree element by element, objects key by key in any order. */
  ghost predicate Alike(a: Json, b: Json)
    decreases a, 1
  {
    match a
    case Atom(_) => b == a
    case Text(_) => b == a
    case Arr(items) => b.Arr? && AlikeItems(items, b.items)
    case Obj(fields) =>
      b.Obj? && AlikeFields(fields, b.fields) && forall k :: Lookup(b.fields, k).Present? ==> Lookup(fields, k).Present?
  }

  ghost predicate AlikeItems(a: Items, b: Items)
    decreases a, 0
  {
    match a
    case NoItems => b == NoItems
    case Item(head, tail) => b.Item? && Alike(head, b.head) && AlikeItems(tail, b.tail)
  }

  /** Each field's value is alike the one found under its key. */
  ghost predicate AlikeFields(fields: Fields, others: Fields)
    decreases fields, 0
  {
    fields.Field? ==>
      && Lookup(others, fields.key).Present? && Alike(fields.value, Lookup(others, fields.key).value)
      && AlikeFields(fields.rest, others)
  }

  /** No object has a key twice, as in Python's dictionaries. */
  predicate IsPayload(v: Json) {
    match v
    case Arr(items) => ArePayloads(items)
    case Obj(fields) => DistinctKeys(fields) && HoldsPayloads(fields)
    case _ => true
  }

  predicate ArePayloads(items: Items) {
    items.Item? ==> IsPayload(items.head) && ArePayloads(items.tail)
  }

  predicate HoldsPayloads(fields: Fields) {
    fields.Field? ==> IsPayload(fields.value) && HoldsPayloads(fields.rest)
  }

  // ----- keys in order -----

  /** The keys of every object, inside arrays too, are in strict order. */
  predicate InKeyOrder(v: Json) {
    match v
    case Arr(items) => AllInKeyOrder(items)
    case Obj(fields) => FieldsInKeyOrder(fields)
    case _ => true
  }

  predicate AllInKeyOrder(items: Items) {
    items.Item? ==> InKeyOrder(items.head) && AllInKeyOrder(items.tail)
  }

  predicate FieldsInKeyOrder(fields: Fields) {
    fields.Field? ==>
      && (fields.rest.Field? ==> Precedes(fields.key, fields.rest.key))
      && InKeyOrder(fields.value) && FieldsInKeyOrder(fields.rest)
  }

  lemma {:induction false} InsertInKeyOrder(key: string, value: Json, fields: Fields)
    requires FieldsInKeyOrder(fields) && InKeyOrder(value) && Lookup(fields, key) == Absent
    ensures FieldsInKeyOrder(Insert(key, value, fields))
  {
    if fields.Field? {
      PrecedesIsTotal(key, fields.key);
      InsertInKeyOrder(key, value, fields.rest);
    }
  }

  lemma {:induction false} SortedInKeyOrder(v: Json)
    requires IsPayload(v)
    ensures InKeyOrder(Sorted(v))
    decreases v, 1
  {
    match v
    case Arr(items) => SortedItemsInKeyOrder(items);
    case Obj(fields) => SortedFieldsInKeyOrder(fields);
    case _ =>
  }

  lemma {:induction false} SortedItemsInKeyOrder(items: Items)
    requires ArePayloads(items)
    ensures AllInKeyOrder(SortedItems(items))
    decreases items, 0
  {
    if items.Item? {
      SortedInKeyOrder(items.head);
      SortedItemsInKeyOrder(items.tail);
    }
  }

  lemma {:induction false} SortedFieldsInKeyOrder(fields: Fields)
    requires DistinctKeys(fields) && HoldsPayloads(fields)
    ensures FieldsInKeyOrder(SortedFields(fields))
    decreases fields, 0
  {
    if fields.Field? {
      SortedInKeyOrder(fields.value);
      SortedFieldsInKeyOrder(fields.rest);
      SortingKeepsDictionary(fields.rest, fields.key);
      InsertInKeyOrder(fields.key, Sorted(fields.value), SortedFields(fields.rest));
    }
  }

  // ----- sorting keeps the value -----

  lemma {:induction false} SortedIsAlike(v: Json)
    requires IsPayload(v)
    ensures Alike(v, Sorted(v))
    decreases v, 1
  {
    match v
    case Arr(items) => SortedItemsAreAlike(items);
    case Obj(fields) =>
      SortedFieldsAreAlike(fields, fields);
      forall k ensures Lookup(SortedFields(fields), k).Present? ==> Lookup(fields, k).Present? {
        SortingKeepsDictionary(fields, k);
      }
    case _ =>
  }

  lemma {:induction false} SortedItemsAreAlike(items: Items)
    requires ArePayloads(items)
    ensures AlikeItems(items, SortedItems(items))
    decreases items, 0
  {
    if items.Item? {
      SortedIsAlike(items.head);
      SortedItemsAreAlike(items.tail);
    }
  }

  lemma {:induction false} SortedFieldsAreAlike(fields: Fields, all: Fields)
    requires HoldsPayloads(fields) && DistinctKeys(fields) && DistinctKeys(all)
    requires forall k :: Lookup(fields, k).Present? ==> Lookup(all, k) == Lookup(fields, k)
    ensures AlikeFields(fields, SortedFields(all))
    decreases fields, 0
  {
    if fields.Field? {
      SortingKeepsDictionary(all, fields.key);
      assert Lookup(fields, fields.key) == Present(fields.value);
      SortedIsAlike(fields.value);
      forall k | Lookup(fields.rest, k).Present? ensures Lookup(all, k) == Lookup(fields.rest, k) {
        assert Lookup(fields, k) == Lookup(fields.rest, k);
      }
      SortedFieldsAreAlike(fields.rest, all);
    }
  }

  /** Reading the escaped document back gives a value equal to the payload, with all keys in order. */
  lemma ReaderGetsPayload(payload: Json)
    requires Valid(payload) && IsPayload(payload)
    ensures var read := Decode(JsonForScript(payload));
            read.Got? && read.rest == [] && Alike(payload, read.value) && InKeyOrder(read.value)
  {
    ScriptRoundTrip(payload);
    SortedIsAlike(payload);
    SortedInKeyOrder(payload);
  }

  /** So does reading it back once the escape of '<' is undone, if no string and no key mentions that escape. */
  lemma UndoneGivesPayload(payload: Json)
    requires Valid(payload) && IsPayload(payload) && !ValueMentions(payload)
    ensures var read := Decode(UndoAngle(JsonForScript(payload)));
            read.Got? && read.rest == [] && Alike(payload, read.value) && InKeyOrder(read.value)
  {
    UndoneDecodes(payload);
    SortedIsAlike(payload);
    SortedInKeyOrder(payload);
  }

  // ----- equality is as strict as it should be -----

  function Length(items: Items): nat {
    if items.Item? then 1 + Length(items.tail) else 0
  }

  function ElementAt(items: Items, i: nat): Json
    requires i < Length(items)
  {
    if i == 0 then items.head else ElementAt(items.tail, i - 1)
  }

  lemma {:induction false} ElementsAlike(a: Items, b: Items, i: nat)
    requires AlikeItems(a, b) && i < Length(a)
    ensures i < Length(b) && Alike(ElementAt(a, i), ElementAt(b, i))
  {
    if i > 0 {
      ElementsAlike(a.tail, b.tail, i - 1);
    }
  }

  lemma {:induction false} SameLength(a: Items, b: Items)
    requires AlikeItems(a, b)
    ensures Length(a) == Length(b)
  {
    if a.Item? {
      SameLength(a.tail, b.tail);
    }
  }

  ghost predicate AgreeByPosition(a: Items, b: Items) {
    Length(a) == Length(b) && forall i :: 0 <= i < Length(a) ==> Alike(ElementAt(a, i), ElementAt(b, i))
  }

  lemma {:induction false} ItemsFromElements(a: Items, b: Items)
    requires AgreeByPosition(a, b)
    ensures AlikeItems(a, b)
  {
    if a.Item? {
      assert Alike(ElementAt(a, 0), ElementAt(b, 0));
      forall i | 0 <= i < Length(a.tail) ensures Alike(ElementAt(a.tail, i), ElementAt(b.tail, i)) {
        assert Alike(ElementAt(a, i + 1), ElementAt(b, i + 1));
      }
      ItemsFromElements(a.tail, b.tail);
    }
  }

  /** Equal arrays have equally many elements, and equal ones at each position. */
  lemma AlikeByPosition(a: Items, b: Items)
    ensures AlikeItems(a, b) <==> AgreeByPosition(a, b)
  {
    if AlikeItems(a, b) {
      SameLength(a, b);
      forall i | 0 <= i < Length(a) ensures Alike(ElementAt(a, i), ElementAt(b, i)) {
        ElementsAlike(a, b, i);
      }
    }
    if AgreeByPosition(a, b) {
      ItemsFromElements(a, b);
    }
  }
}
