/**
 * The data massaging the HomeboxAPI accessors perform on decoded responses:
 * unwrapping the item envelope, filtering archived items, reading an item's
 * attachments, building the attachment-update payload, and finding the
 * labels no item refers to.
 */
module Payloads {
  import opened PyValues

  /** `a` occurs in `b` in order, possibly with gaps. */
  predicate IsSubsequence(a: seq<Json>, b: seq<Json>)
    decreases |b|
  {
    if a == [] then true
    else if b == [] then false
    else (a[0] == b[0] && IsSubsequence(a[1..], b[1..])) || IsSubsequence(a, b[1..])
  }

  // ---------------- get_all_items / get_archived_items ----------------

  /** `get_all_items`: unwrap `{"items": ...}`, pass a bare list through, `[]` for anything else. */
  function ItemsFrom(response: Json): (r: Json)
    ensures response.JObj? && "items" in response.fields ==> r == response.fields["items"]
    ensures response.JArr? ==> r == response
    ensures !(response.JObj? && "items" in response.fields) && !response.JArr? ==> r == JArr([])
  {
    if response.JObj? && "items" in response.fields then response.fields["items"]
    else if response.JArr? then response
    else JArr([])
  }

  /** The three response shapes `get_all_items` distinguishes. */
  lemma ItemsFromExamples()
    ensures ItemsFrom(JObj(map["items" := JArr([JObj(map["id" := JStr("a")]), JObj(map["id" := JStr("b")])])]))
            == JArr([JObj(map["id" := JStr("a")]), JObj(map["id" := JStr("b")])])
    ensures ItemsFrom(JArr([JObj(map["id" := JStr("a")])])) == JArr([JObj(map["id" := JStr("a")])])
    ensures ItemsFrom(JObj(map["unexpected" := JBool(true)])) == JArr([])
  {
  }

  /** An item the archived filter keeps: a dict whose `archived` value (default False) is truthy. */
  predicate IsArchived(item: Json)
  {
    item.JObj? && Truthy(Get(item.fields, "archived", JBool(false)))
  }

  /** A list comprehension with a condition: the elements satisfying `keep`, in order. */
  function Filter(xs: seq<Json>, keep: Json -> bool): (r: seq<Json>)
    ensures IsSubsequence(r, xs)
    ensures forall x :: multiset(r)[x] == if keep(x) then multiset(xs)[x] else 0
  {
    if xs == [] then []
    else
      var rest := Filter(xs[1..], keep);
      assert xs == [xs[0]] + xs[1..];
      if keep(xs[0]) then [xs[0]] + rest else rest
  }

  /**
   * `get_archived_items` applied to what `get_all_items` returned: `[]` for
   * a falsy value; otherwise the archived dicts among the values it
   * iterates over (none for a string or dict), and TypeError for a value
   * that cannot be iterated.
   */
  function ArchivedItems(allItems: Json): (r: Result<Json>)
    ensures !Truthy(allItems) ==> r == Ok(JArr([]))
    ensures allItems.JArr? ==> r == Ok(JArr(Filter(allItems.elems, IsArchived)))
    ensures r.Err? <==> Truthy(allItems) && !(allItems.JArr? || allItems.JStr? || allItems.JObj?)
    ensures r.Ok? ==> r.value.JArr? && forall x :: x in r.value.elems ==> IsArchived(x)
  {
    if !Truthy(allItems) then Ok(JArr([]))
    else match Elements(allItems)
      case Err(e) => Err(e)
      case Ok(xs) =>
        var kept := Filter(xs, IsArchived);
        assert forall x :: x in kept ==> multiset(kept)[x] > 0;
        Ok(JArr(kept))
  }

  /** Only the first of `[{"archived": true}, {"archived": false}, {}]` is archived. */
  lemma ArchivedExample()
    ensures ArchivedItems(JArr([JObj(map["archived" := JBool(true)]), JObj(map["archived" := JBool(false)]), JObj(map[])]))
            == Ok(JArr([JObj(map["archived" := JBool(true)])]))
  {
    var a := JObj(map["archived" := JBool(true)]);
    var b := JObj(map["archived" := JBool(false)]);
    var c := JObj(map[]);
    assert IsArchived(a) && !IsArchived(b) && !IsArchived(c);
    assert [c][1..] == [];
    assert Filter([c], IsArchived) == [];
    assert [b, c][1..] == [c];
    assert Filter([b, c], IsArchived) == [];
    assert [a, b, c][1..] == [b, c];
    assert Filter([a, b, c], IsArchived) == [a];
  }

  // ---------------- get_attachments ----------------

  /** `get_attachments`: the item's `attachments` list, `[]` when the item is not a dict holding one. */
  function AttachmentsOf(item: Json): (r: seq<Json>)
    ensures item.JObj? && "attachments" in item.fields && item.fields["attachments"].JArr? ==>
      r == item.fields["attachments"].elems
    ensures !(item.JObj? && "attachments" in item.fields && item.fields["attachments"].JArr?) ==> r == []
  {
    if item.JObj? && "attachments" in item.fields && item.fields["attachments"].JArr? then
      item.fields["attachments"].elems
    else []
  }

  // ---------------- delete_label / delete_attachment ----------------

  /**
   * Both deletions report success exactly when `request` returned the
   * value True (`success is True`, or a bool that is truthy).
   */
  predicate ConfirmsDeletion(response: Json)
  {
    response == JBool(true)
  }

  // ---------------- update_attachment ----------------

  const AttachmentTypes: set<string> := {"manual", "photo", "receipt", "attachment", "warranty"}

  predicate IsAttachmentType(t: Json)
  {
    t.JStr? && t.s in AttachmentTypes
  }

  /**
   * The body `update_attachment` sends, or None when it sends nothing: a
   * truthy type outside the five valid ones, or nothing to change.
   */
  function UpdatePayload(newType: Json, newName: Json, newPrimary: Json): (r: Option<map<string, Json>>)
    ensures r.None? <==>
      (Truthy(newType) && !IsAttachmentType(newType)) || (!Truthy(newType) && !Truthy(newName) && newPrimary == JNull)
    ensures r.Some? ==> r.value.Keys <= {"type", "name", "title", "primary"}
    ensures r.Some? ==> ("type" in r.value <==> Truthy(newType))
    ensures r.Some? && "type" in r.value ==> r.value["type"] == newType
    ensures r.Some? ==> ("name" in r.value <==> Truthy(newName)) && ("title" in r.value <==> Truthy(newName))
    ensures r.Some? && "name" in r.value ==> r.value["name"] == newName && r.value["title"] == newName
    ensures r.Some? ==> ("primary" in r.value <==> newPrimary != JNull)
    ensures r.Some? && "primary" in r.value ==> r.value["primary"] == newPrimary
  {
    if Truthy(newType) && !IsAttachmentType(newType) then None
    else
      var withType := if Truthy(newType) then map["type" := newType] else map[];
      var withName := if Truthy(newName) then withType["name" := newName]["title" := newName] else withType;
      var data := if newPrimary != JNull then withName["primary" := newPrimary] else withName;
      assert Truthy(newType) ==> "type" in data;
      assert Truthy(newName) ==> "name" in data;
      assert newPrimary != JNull ==> "primary" in data;
      if data == map[] then None else Some(data)
  }

  /**
   * What `update_attachment` returns for the response of its PUT: the
   * response when it is a non-empty dict without an `error` key, else None.
   */
  function UpdateOutcome(response: Json): (r: Json)
    ensures r == response || r == JNull
    ensures r != JNull <==> response.JObj? && response.fields != map[] && "error" !in response.fields
  {
    if Truthy(response) && response.JObj? && "error" !in response.fields then response else JNull
  }

  // ---------------- get_empty_labels ----------------

  /** A label `get_empty_labels` collects an id from: a dict with an `id` key. */
  predicate HasId(lbl: Json)
  {
    lbl.JObj? && "id" in lbl.fields
  }

  /** The labels of an item as `get_empty_labels` reads them: none unless the item is a dict whose `labels` is a list. */
  function LabelsOf(item: Json): (r: seq<Json>)
    ensures !item.JObj? ==> r == []
    ensures item.JObj? && !Get(item.fields, "labels", JArr([])).JArr? ==> r == []
    ensures item.JObj? && "labels" in item.fields && item.fields["labels"].JArr? ==> r == item.fields["labels"].elems
  {
    if item.JObj? then
      var labels := Get(item.fields, "labels", JArr([]));
      if labels.JArr? then labels.elems else []
    else []
  }

  /** Label `j` of item `i` is a dict with an id. */
  predicate IdLabelAt(items: seq<Json>, i: int, j: int)
  {
    0 <= i < |items| && 0 <= j < |LabelsOf(items[i])| && HasId(LabelsOf(items[i])[j])
  }

  /** Some well-formed label of a well-formed item carries an id whose set key is `k`. */
  ghost predicate Attached(items: seq<Json>, k: Json)
  {
    exists i, j :: IdLabelAt(items, i, j) && Key(LabelsOf(items[i])[j].fields["id"]) == k
  }

  /** Some well-formed label of a well-formed item carries an id that cannot be hashed. */
  ghost predicate UnhashableAttached(items: seq<Json>)
  {
    exists i, j :: IdLabelAt(items, i, j) && !Hashable(LabelsOf(items[i])[j].fields["id"])
  }

  /** Some label in `labels` is a dict with an id whose set key is `k`. */
  ghost predicate Carries(labels: seq<Json>, k: Json)
  {
    exists j :: 0 <= j < |labels| && HasId(labels[j]) && Key(labels[j].fields["id"]) == k
  }

  /** Some label in `labels` is a dict with an id that cannot be hashed. */
  ghost predicate UnhashableIn(labels: seq<Json>)
  {
    exists j :: 0 <= j < |labels| && HasId(labels[j]) && !Hashable(labels[j].fields["id"])
  }

  /** The keys of the ids of the well-formed labels in one label list. */
  function LabelIds(labels: seq<Json>): (r: Result<set<Json>>)
    ensures r.Err? ==> r.error == TypeError
    ensures r.Err? <==> UnhashableIn(labels)
    ensures r.Ok? ==> forall k :: k in r.value <==> Carries(labels, k)
  {
    if labels == [] then Ok({})
    else
      var init := labels[..|labels| - 1];
      var last := labels[|labels| - 1];
      assert forall j :: 0 <= j < |init| ==> init[j] == labels[j];
      var prev := LabelIds(init);
      if prev.Err? then prev
      else if !HasId(last) then prev
      else if !Hashable(last.fields["id"]) then Err(TypeError)
      else Ok(prev.value + {Key(last.fields["id"])})
  }

  /** A label position of all but the last item is one of the whole list. */
  lemma IdLabelAtInit(items: seq<Json>, i: int, j: int)
    requires items != []
    ensures IdLabelAt(items[..|items| - 1], i, j) <==> IdLabelAt(items, i, j) && i < |items| - 1
    ensures 0 <= i < |items| - 1 ==> items[..|items| - 1][i] == items[i]
  {
  }

  /** An unhashable id sits either in the items before the last or in the last one. */
  lemma UnhashableSnoc(items: seq<Json>)
    requires items != []
    ensures UnhashableAttached(items)
      <==> UnhashableAttached(items[..|items| - 1]) || UnhashableIn(LabelsOf(items[|items| - 1]))
  {
    var init, last := items[..|items| - 1], items[|items| - 1];
    if UnhashableAttached(items) {
      var i, j :| IdLabelAt(items, i, j) && !Hashable(LabelsOf(items[i])[j].fields["id"]);
      IdLabelAtInit(items, i, j);
    }
    if UnhashableAttached(init) {
      var i, j :| IdLabelAt(init, i, j) && !Hashable(LabelsOf(init[i])[j].fields["id"]);
      IdLabelAtInit(items, i, j);
    }
    if UnhashableIn(LabelsOf(last)) {
      var j :| 0 <= j < |LabelsOf(last)| && HasId(LabelsOf(last)[j]) && !Hashable(LabelsOf(last)[j].fields["id"]);
      assert IdLabelAt(items, |items| - 1, j);
    }
  }

  /** A label id is attached to the items when it is attached to those before the last or to the last one. */
  lemma AttachedSnoc(items: seq<Json>, k: Json)
    requires items != []
    ensures Attached(items, k) <==> Attached(items[..|items| - 1], k) || Carries(LabelsOf(items[|items| - 1]), k)
  {
    var init, last := items[..|items| - 1], items[|items| - 1];
    if Attached(items, k) {
      var i, j :| IdLabelAt(items, i, j) && Key(LabelsOf(items[i])[j].fields["id"]) == k;
      IdLabelAtInit(items, i, j);
    }
    if Attached(init, k) {
      var i, j :| IdLabelAt(init, i, j) && Key(LabelsOf(init[i])[j].fields["id"]) == k;
      IdLabelAtInit(items, i, j);
    }
    if Carries(LabelsOf(last), k) {
      var j :| 0 <= j < |LabelsOf(last)| && HasId(LabelsOf(last)[j]) && Key(LabelsOf(last)[j].fields["id"]) == k;
      assert IdLabelAt(items, |items| - 1, j);
    }
  }

  /**
   * The label ids `get_empty_labels` collects from the items it iterates:
   * non-dict items, non-list `labels` and labels without `id` are skipped;
   * an id that cannot be hashed raises TypeError.
   */
  function UsedLabelIds(items: seq<Json>): (r: Result<set<Json>>)
    ensures r.Err? ==> r.error == TypeError
    ensures r.Err? <==> UnhashableAttached(items)
    ensures r.Ok? ==> forall k :: k in r.value <==> Attached(items, k)
  {
    if items == [] then Ok({})
    else
      var prev := UsedLabelIds(items[..|items| - 1]);
      UnhashableSnoc(items);
      assert forall k :: Attached(items, k) <==> Attached(items[..|items| - 1], k) || Carries(LabelsOf(items[|items| - 1]), k) by {
        forall k ensures Attached(items, k) <==> Attached(items[..|items| - 1], k) || Carries(LabelsOf(items[|items| - 1]), k) {
          AttachedSnoc(items, k);
        }
      }
      if prev.Err? then prev
      else
        match LabelIds(LabelsOf(items[|items| - 1]))
        case Err(e) => Err(e)
        case Ok(ids) => Ok(prev.value + ids)
  }

  /** One more item: its label ids join those of the items before it. */
  lemma UsedLabelIdsSnoc(items: seq<Json>, i: int)
    requires 0 <= i < |items|
    requires UsedLabelIds(items[..i]).Ok?
    ensures LabelIds(LabelsOf(items[i])).Ok? ==>
      UsedLabelIds(items[..i + 1]) == Ok(UsedLabelIds(items[..i]).value + LabelIds(LabelsOf(items[i])).value)
  {
    assert items[..i + 1][..i] == items[..i];
    assert items[..i + 1][i] == items[i];
  }

  /** The outer loop of `get_empty_labels` that grows the set of used label ids, item by item. */
  method CollectUsedLabelIds(items: seq<Json>) returns (r: Result<set<Json>>)
    ensures r == UsedLabelIds(items)
  {
    var used: set<Json> := {};
    var i := 0;
    while i < |items|
      invariant 0 <= i <= |items|
      invariant UsedLabelIds(items[..i]) == Ok(used)
    {
      var item := items[i];
      var labels: seq<Json> := [];
      if item.JObj? && Get(item.fields, "labels", JArr([])).JArr? {
        labels := Get(item.fields, "labels", JArr([])).elems;
      }
      assert labels == LabelsOf(item);
      var added := AddLabelIds(labels, used);
      if added.Err? {
        var j :| 0 <= j < |labels| && HasId(labels[j]) && !Hashable(labels[j].fields["id"]);
        assert IdLabelAt(items, i, j);
        return Err(TypeError);
      }
      UsedLabelIdsSnoc(items, i);
      used := added.value;
      i := i + 1;
    }
    assert items[..i] == items;
    return Ok(used);
  }

  /** The inner loop: add the ids of the labels that are dicts with an `id`; an unhashable id raises. */
  method AddLabelIds(labels: seq<Json>, used: set<Json>) returns (r: Result<set<Json>>)
    ensures LabelIds(labels).Err? ==> r == Err(TypeError)
    ensures LabelIds(labels).Ok? ==> r == Ok(used + LabelIds(labels).value)
  {
    var acc := used;
    var j := 0;
    while j < |labels|
      invariant 0 <= j <= |labels|
      invariant LabelIds(labels[..j]).Ok?
      invariant acc == used + LabelIds(labels[..j]).value
    {
      var lbl := labels[j];
      assert labels[..j + 1][..j] == labels[..j];
      if lbl.JObj? && "id" in lbl.fields {
        if !Hashable(lbl.fields["id"]) {
          assert labels[..j + 1][j] == lbl;
          assert LabelIds(labels).Err?;
          return Err(TypeError);
        }
        acc := acc + {Key(lbl.fields["id"])};
      }
      j := j + 1;
    }
    assert labels[..j] == labels;
    return Ok(acc);
  }

  /** A label the comprehension over all labels can read: a dict whose `id` can be hashed. */
  predicate IsIdLabel(lbl: Json)
  {
    HasId(lbl) && Hashable(lbl.fields["id"])
  }

  /** What `label["id"] not in used` raises for a label that is not an id label. */
  function LabelFault(lbl: Json): Exc
  {
    if !lbl.JObj? then TypeError
    else if "id" !in lbl.fields then KeyError("id")
    else TypeError
  }

  /** Every label is a dict with a hashable id. */
  predicate AllIdLabels(labels: seq<Json>)
  {
    forall j :: 0 <= j < |labels| ==> IsIdLabel(labels[j])
  }

  /** `e` is what the first label that is not an id label raises. */
  ghost predicate FirstFault(labels: seq<Json>, e: Exc)
  {
    exists j :: 0 <= j < |labels| && !IsIdLabel(labels[j]) && e == LabelFault(labels[j])
      && forall i :: 0 <= i < j ==> IsIdLabel(labels[i])
  }

  /** The labels are all id labels when the first one is and the rest are; a first label that is not raises first. */
  lemma IdLabelsCons(labels: seq<Json>)
    requires labels != []
    ensures AllIdLabels(labels) <==> IsIdLabel(labels[0]) && AllIdLabels(labels[1..])
    ensures !IsIdLabel(labels[0]) ==> FirstFault(labels, LabelFault(labels[0]))
  {
    assert forall j :: 1 <= j < |labels| ==> labels[j] == labels[1..][j - 1];
  }

  /** After an id label, the first fault of the rest is the first fault of the whole list. */
  lemma FaultCons(labels: seq<Json>, e: Exc)
    requires labels != [] && IsIdLabel(labels[0])
    requires FirstFault(labels[1..], e)
    ensures FirstFault(labels, e)
  {
    var j :| 0 <= j < |labels[1..]| && !IsIdLabel(labels[1..][j]) && e == LabelFault(labels[1..][j])
      && forall i :: 0 <= i < j ==> IsIdLabel(labels[1..][i]);
    assert labels[j + 1] == labels[1..][j];
    assert forall i :: 1 <= i < j + 1 ==> labels[i] == labels[1..][i - 1];
  }

  /** An id label whose id is not among `used`. */
  predicate IsUnused(lbl: Json, used: set<Json>)
  {
    IsIdLabel(lbl) && Key(lbl.fields["id"]) !in used
  }

  /**
   * `[label for label in all_labels if label["id"] not in used_label_ids]`:
   * the labels, in order, whose id is not used; the first label that is
   * not a dict with a hashable id raises.
   */
  function UnusedLabels(labels: seq<Json>, used: set<Json>): (r: Result<seq<Json>>)
    ensures r.Ok? <==> AllIdLabels(labels)
    ensures r.Err? ==> FirstFault(labels, r.error)
    ensures r.Ok? ==> r.value == Filter(labels, x => IsUnused(x, used))
  {
    if labels == [] then Ok([])
    else
      var lbl := labels[0];
      IdLabelsCons(labels);
      if !IsIdLabel(lbl) then Err(LabelFault(lbl))
      else
        match UnusedLabels(labels[1..], used)
        case Err(e) => FaultCons(labels, e); Err(e)
        case Ok(rest) => Ok(if Key(lbl.fields["id"]) in used then rest else [lbl] + rest)
  }

  /** Every label `UnusedLabels` returns is an id label whose id is not used. */
  lemma UnusedLabelsAreUnused(labels: seq<Json>, used: set<Json>)
    requires UnusedLabels(labels, used).Ok?
    ensures forall x :: x in UnusedLabels(labels, used).value ==> IsUnused(x, used)
  {
    var r := UnusedLabels(labels, used).value;
    forall x | x in r ensures IsUnused(x, used) {
      assert multiset(r)[x] > 0;
    }
  }

  /** A label no item refers to: an id label whose id no well-formed label of `items` carries. */
  ghost predicate Unattached(items: seq<Json>, x: Json)
  {
    IsIdLabel(x) && !Attached(items, Key(x.fields["id"]))
  }

  /**
   * `get_empty_labels` after fetching: None when the labels or the items
   * are falsy or no label is unused; otherwise the unused labels in order.
   * Listing them reads `label['name']`, so an unused label without a name
   * raises KeyError.
   */
  function EmptyLabels(allLabels: Json, allItems: Json): (r: Result<Json>)
    ensures !Truthy(allLabels) || !Truthy(allItems) ==> r == Ok(JNull)
    ensures r.Ok? ==> r.value == JNull || (r.value.JArr? && r.value.elems != [])
    ensures r.Ok? && r.value.JArr? ==> forall x :: x in r.value.elems ==> x.JObj? && "name" in x.fields
  {
    if !Truthy(allLabels) || !Truthy(allItems) then Ok(JNull)
    else match Elements(allItems)
      case Err(e) => Err(e)
      case Ok(items) =>
        match UsedLabelIds(items)
        case Err(e) => Err(e)
        case Ok(used) => UnusedReport(allLabels, used)
  }

  /** The second half of `get_empty_labels`: the labels whose id is not in `used`, listed by name. */
  function UnusedReport(allLabels: Json, used: set<Json>): (r: Result<Json>)
    ensures r.Ok? ==> r.value == JNull || (r.value.JArr? && r.value.elems != [])
    ensures r.Ok? && r.value.JArr? ==> forall x :: x in r.value.elems ==> x.JObj? && "name" in x.fields
  {
    match Elements(allLabels)
    case Err(e) => Err(e)
    case Ok(labels) =>
      match UnusedLabels(labels, used)
      case Err(e) => Err(e)
      case Ok(unused) =>
        if unused == [] then Ok(JNull)
        else if exists x :: x in unused && !(x.JObj? && "name" in x.fields) then Err(KeyError("name"))
        else Ok(JArr(unused))
  }

  /**
   * What `get_empty_labels` reports, for a non-empty label list and item
   * list: the labels no item refers to, in their original order and with
   * their multiplicity, or None when every label is in use.
   */
  lemma EmptyLabelsAreUnattached(allLabels: Json, allItems: Json)
    requires Truthy(allLabels) && Truthy(allItems)
    requires EmptyLabels(allLabels, allItems).Ok?
    ensures allLabels.JArr? && Elements(allItems).Ok?
    ensures forall j :: 0 <= j < |allLabels.elems| ==> IsIdLabel(allLabels.elems[j])
    ensures EmptyLabels(allLabels, allItems).value == JNull ==>
      forall j :: 0 <= j < |allLabels.elems| ==> !Unattached(Elements(allItems).value, allLabels.elems[j])
    ensures EmptyLabels(allLabels, allItems).value != JNull ==>
      var found := EmptyLabels(allLabels, allItems).value;
      && found.JArr?
      && IsSubsequence(found.elems, allLabels.elems)
      && forall x :: multiset(found.elems)[x] ==
           if Unattached(Elements(allItems).value, x) then multiset(allLabels.elems)[x] else 0
  {
    var items := Elements(allItems).value;
    var used := UsedLabelIds(items).value;
    var labels := Elements(allLabels).value;
    var unused := UnusedLabels(labels, used).value;
    assert forall x :: IsUnused(x, used) <==> Unattached(items, x);
    if unused == [] {
      forall j | 0 <= j < |labels| ensures !Unattached(items, labels[j]) {
        assert multiset(labels)[labels[j]] > 0;
      }
    }
  }

  /** The one item of the example below: a dict whose labels list holds the label with id L1. */
  function ExampleItem(): Json
  {
    JObj(map["labels" := JArr([JObj(map["id" := JStr("L1")])])])
  }

  /** The only id attached to the example item is L1. */
  lemma ExampleUsed()
    ensures UsedLabelIds([ExampleItem()]) == Ok({JStr("L1")})
  {
    var tag := JObj(map["id" := JStr("L1")]);
    assert LabelsOf(ExampleItem()) == [tag];
    assert IsIdLabel(tag) && Key(tag.fields["id"]) == JStr("L1");
    var one := [tag];
    assert one[..|one| - 1] == [];
    assert LabelIds([]) == Ok({});
    assert HasId(one[|one| - 1]) && Hashable(one[|one| - 1].fields["id"]);
    assert LabelIds(one) == Ok({} + {JStr("L1")});
    assert [ExampleItem()][..0] == [];
  }

  /** Of labels L1 and L2, only L2 is unused when L1 is. */
  lemma ExampleUnused(l1: Json, l2: Json)
    requires IsIdLabel(l1) && l1.fields["id"] == JStr("L1")
    requires IsIdLabel(l2) && l2.fields["id"] == JStr("L2")
    ensures UnusedLabels([l1, l2], {JStr("L1")}) == Ok([l2])
  {
    assert "L2"[1] != "L1"[1];
    assert Key(l1.fields["id"]) in {JStr("L1")} && Key(l2.fields["id"]) !in {JStr("L1")};
    assert [l1, l2][1..] == [l2] && [l2][1..] == [];
    assert UnusedLabels([], {JStr("L1")}) == Ok([]);
    assert UnusedLabels([l2], {JStr("L1")}) == Ok([l2] + []);
    assert [l2] + [] == [l2];
    assert UnusedLabels([l1, l2], {JStr("L1")}) == UnusedLabels([l2], {JStr("L1")});
  }

  /** For non-empty lists of labels and items whose ids hash, the report is the one over the used ids. */
  lemma EmptyLabelsOfLists(labels: seq<Json>, items: seq<Json>, used: set<Json>)
    requires labels != [] && items != [] && UsedLabelIds(items) == Ok(used)
    ensures EmptyLabels(JArr(labels), JArr(items)) == UnusedReport(JArr(labels), used)
  {
  }

  /** A report whose unused labels all have names lists them. */
  lemma NamedReport(labels: seq<Json>, used: set<Json>, unused: seq<Json>)
    requires UnusedLabels(labels, used) == Ok(unused) && unused != []
    requires forall x :: x in unused ==> x.JObj? && "name" in x.fields
    ensures UnusedReport(JArr(labels), used) == Ok(JArr(unused))
  {
  }

  /** A report with an unused label `x` that has no name raises KeyError. */
  lemma NamelessReport(labels: seq<Json>, used: set<Json>, unused: seq<Json>, x: Json)
    requires UnusedLabels(labels, used) == Ok(unused)
    requires x in unused && !(x.JObj? && "name" in x.fields)
    ensures UnusedReport(JArr(labels), used) == Err(KeyError("name"))
  {
  }

  /** Labels with ids L1 and L2 and the example item carrying L1: L2 alone is reported when it has a name. */
  lemma UnusedLabelExample(l1: Json, l2: Json)
    requires IsIdLabel(l1) && l1.fields["id"] == JStr("L1")
    requires IsIdLabel(l2) && l2.fields["id"] == JStr("L2") && "name" in l2.fields
    ensures EmptyLabels(JArr([l1, l2]), JArr([ExampleItem()])) == Ok(JArr([l2]))
  {
    ExampleUsed();
    ExampleUnused(l1, l2);
    EmptyLabelsOfLists([l1, l2], [ExampleItem()], {JStr("L1")});
    assert forall x :: x in [l2] ==> x == l2;
    NamedReport([l1, l2], {JStr("L1")}, [l2]);
  }

  /** The same, with L2 lacking a name: listing it by name raises KeyError. */
  lemma NamelessLabelExample(l1: Json, l2: Json)
    requires IsIdLabel(l1) && l1.fields["id"] == JStr("L1")
    requires IsIdLabel(l2) && l2.fields["id"] == JStr("L2") && "name" !in l2.fields
    ensures EmptyLabels(JArr([l1, l2]), JArr([ExampleItem()])) == Err(KeyError("name"))
  {
    ExampleUsed();
    ExampleUnused(l1, l2);
    EmptyLabelsOfLists([l1, l2], [ExampleItem()], {JStr("L1")});
    NamelessReport([l1, l2], {JStr("L1")}, [l2], l2);
  }

  // ---------------- find_and_delete_empty_labels ----------------

  /**
   * `{label["id"] for label in labels}` within the comprehension of
   * `find_and_delete_empty_labels`: every label must be a dict with a
   * hashable id; the first one that is not raises.
   */
  function StrictLabelIds(labels: seq<Json>): (r: Result<set<Json>>)
    ensures r.Ok? <==> AllIdLabels(labels)
    ensures r.Err? ==> FirstFault(labels, r.error)
    ensures r.Ok? ==> forall k :: k in r.value <==> Carries(labels, k)
  {
    if labels == [] then Ok({})
    else
      var lbl := labels[0];
      IdLabelsCons(labels);
      if !IsIdLabel(lbl) then Err(LabelFault(lbl))
      else
        match StrictLabelIds(labels[1..])
        case Err(e) => FaultCons(labels, e); Err(e)
        case Ok(rest) =>
          var ids := {Key(lbl.fields["id"])} + rest;
          assert Carries(labels, Key(lbl.fields["id"])) by {
            assert HasId(labels[0]);
          }
          assert forall k :: k in rest ==> Carries(labels, k) by {
            forall k | k in rest ensures Carries(labels, k) {
              var j :| 0 <= j < |labels[1..]| && HasId(labels[1..][j]) && Key(labels[1..][j].fields["id"]) == k;
              assert labels[j + 1] == labels[1..][j];
            }
          }
          assert forall k :: Carries(labels, k) ==> k in ids by {
            forall k | Carries(labels, k) ensures k in ids {
              var j :| 0 <= j < |labels| && HasId(labels[j]) && Key(labels[j].fields["id"]) == k;
              if j > 0 {
                assert labels[1..][j - 1] == labels[j];
                assert Carries(labels[1..], k);
              }
            }
          }
          Ok(ids)
  }

  /**
   * `{label["id"] for item in all_items for label in item.get("labels", [])}`:
   * malformed items are not skipped. A non-dict item raises AttributeError,
   * a `labels` value that cannot be iterated raises TypeError, and so does
   * iterating a non-empty string or dict (its elements are strings).
   */
  /** An item the strict collection reads: a dict whose `labels` iterate as its label list, every label with a hashable id. */
  predicate StrictItem(item: Json)
  {
    && item.JObj?
    && Elements(Get(item.fields, "labels", JArr([]))) == Ok(LabelsOf(item))
    && AllIdLabels(LabelsOf(item))
  }

  function StrictUsedLabelIds(items: seq<Json>): (r: Result<set<Json>>)
    ensures r.Ok? <==> forall i :: 0 <= i < |items| ==> StrictItem(items[i])
    ensures r.Ok? ==> forall i :: 0 <= i < |items| ==> items[i].JObj?
    ensures r.Ok? ==> forall i :: 0 <= i < |items| ==> Elements(Get(items[i].fields, "labels", JArr([]))) == Ok(LabelsOf(items[i]))
    ensures r.Ok? ==> forall i, j :: 0 <= i < |items| && 0 <= j < |LabelsOf(items[i])| ==> IsIdLabel(LabelsOf(items[i])[j])
    ensures r.Ok? ==> forall k :: k in r.value <==> Attached(items, k)
    ensures items != [] && !items[0].JObj? ==> r == Err(AttributeError)
  {
    if items == [] then Ok({})
    else if !items[0].JObj? then Err(AttributeError)
    else
      var first := items[0];
      match Elements(Get(first.fields, "labels", JArr([])))
      case Err(e) => Err(e)
      case Ok(labels) =>
        match StrictLabelIds(labels)
        case Err(e) => Err(e)
        case Ok(ids) =>
          match StrictUsedLabelIds(items[1..])
          case Err(e) => Err(e)
          case Ok(rest) =>
            StrictUsedCons(items, labels, ids, rest);
            Ok(ids + rest)
  }

  /** What the strict collection establishes for the first item and the rest, it establishes for the whole list. */
  lemma StrictUsedCons(items: seq<Json>, labels: seq<Json>, ids: set<Json>, rest: set<Json>)
    requires items != [] && items[0].JObj?
    requires Elements(Get(items[0].fields, "labels", JArr([]))) == Ok(labels)
    requires forall j :: 0 <= j < |labels| ==> IsIdLabel(labels[j])
    requires forall k :: k in ids <==> Carries(labels, k)
    requires forall i :: 0 <= i < |items[1..]| ==> items[1..][i].JObj?
    requires forall i :: 0 <= i < |items[1..]| ==> Elements(Get(items[1..][i].fields, "labels", JArr([]))) == Ok(LabelsOf(items[1..][i]))
    requires forall i, j :: 0 <= i < |items[1..]| && 0 <= j < |LabelsOf(items[1..][i])| ==> IsIdLabel(LabelsOf(items[1..][i])[j])
    requires forall k :: k in rest <==> Attached(items[1..], k)
    ensures forall i :: 0 <= i < |items| ==> items[i].JObj?
    ensures forall i :: 0 <= i < |items| ==> Elements(Get(items[i].fields, "labels", JArr([]))) == Ok(LabelsOf(items[i]))
    ensures forall i, j :: 0 <= i < |items| && 0 <= j < |LabelsOf(items[i])| ==> IsIdLabel(LabelsOf(items[i])[j])
    ensures forall k :: k in ids + rest <==> Attached(items, k)
  {
    var tail := items[1..];
    assert forall i :: 1 <= i < |items| ==> items[i] == tail[i - 1];
    assert labels == LabelsOf(items[0]) by {
      if labels != [] { assert IsIdLabel(labels[0]); }
    }
    forall k ensures k in ids + rest <==> Attached(items, k) {
      if k in ids {
        var j :| 0 <= j < |labels| && HasId(labels[j]) && Key(labels[j].fields["id"]) == k;
        assert IdLabelAt(items, 0, j);
      }
      if k in rest {
        var i, j :| IdLabelAt(tail, i, j) && Key(LabelsOf(tail[i])[j].fields["id"]) == k;
        assert IdLabelAt(items, i + 1, j);
      }
      if Attached(items, k) {
        var i, j :| IdLabelAt(items, i, j) && Key(LabelsOf(items[i])[j].fields["id"]) == k;
        if i > 0 { assert IdLabelAt(tail, i - 1, j); }
      }
    }
  }

  /**
   * The labels `find_and_delete_empty_labels` deletes, from what it
   * fetched: the unused labels in order, computed with the strict id
   * collection above.
   */
  function LabelsToDelete(allLabels: Json, allItems: Json): (r: Result<seq<Json>>)
    ensures r.Ok? ==> Elements(allItems).Ok? && Elements(allLabels).Ok?
    ensures r.Ok? ==> forall x :: x in Elements(allItems).value ==> x.JObj?
    ensures r.Ok? <==>
      && Elements(allItems).Ok? && (forall i :: 0 <= i < |Elements(allItems).value| ==> StrictItem(Elements(allItems).value[i]))
      && Elements(allLabels).Ok? && AllIdLabels(Elements(allLabels).value)
  {
    match Elements(allItems)
    case Err(e) => Err(e)
    case Ok(items) =>
      match StrictUsedLabelIds(items)
      case Err(e) => Err(e)
      case Ok(used) =>
        match Elements(allLabels)
        case Err(e) => Err(e)
        case Ok(labels) => UnusedLabels(labels, used)
  }

  /** Labels L1 and L2 and an item carrying L1: the cleanup marks the L2 label alone, whether or not the labels have names. */
  lemma CleanupExample(l1: Json, l2: Json)
    requires IsIdLabel(l1) && l1.fields["id"] == JStr("L1")
    requires IsIdLabel(l2) && l2.fields["id"] == JStr("L2")
    ensures LabelsToDelete(JArr([l1, l2]), JArr([ExampleItem()])) == Ok([l2])
  {
    var item := ExampleItem();
    assert StrictItem(item) by {
      assert "labels"[0] != "id"[0];
      assert IsIdLabel(LabelsOf(item)[0]);
    }
    assert StrictUsedLabelIds([item]).Ok?;
    StrictAgreesWithLenient([item]);
    ExampleUsed();
    ExampleUnused(l1, l2);
  }

  /**
   * The labels `find_and_delete_empty_labels` deletes are exactly the
   * labels no item refers to, in order and with their multiplicity.
   */
  lemma LabelsToDeleteAreUnattached(allLabels: Json, allItems: Json)
    requires LabelsToDelete(allLabels, allItems).Ok?
    ensures var found := LabelsToDelete(allLabels, allItems).value;
      && IsSubsequence(found, Elements(allLabels).value)
      && forall x :: multiset(found)[x] ==
           if Unattached(Elements(allItems).value, x) then multiset(Elements(allLabels).value)[x] else 0
  {
    var items := Elements(allItems).value;
    var used := StrictUsedLabelIds(items).value;
    assert forall x :: IsUnused(x, used) <==> Unattached(items, x);
  }

  /** Every label `find_and_delete_empty_labels` deletes is a dict with a hashable id. */
  lemma LabelsToDeleteAreIdLabels(allLabels: Json, allItems: Json)
    requires LabelsToDelete(allLabels, allItems).Ok?
    ensures forall i :: 0 <= i < |LabelsToDelete(allLabels, allItems).value| ==> IsIdLabel(LabelsToDelete(allLabels, allItems).value[i])
  {
    var labels := Elements(allLabels).value;
    var used := StrictUsedLabelIds(Elements(allItems).value).value;
    UnusedLabelsAreUnused(labels, used);
    var r := LabelsToDelete(allLabels, allItems).value;
    assert r == UnusedLabels(labels, used).value;
    forall i | 0 <= i < |r| ensures IsIdLabel(r[i]) {
      assert r[i] in r;
    }
  }

  /** On items the strict collection accepts, both collections find the same ids. */
  lemma StrictAgreesWithLenient(items: seq<Json>)
    requires StrictUsedLabelIds(items).Ok?
    ensures UsedLabelIds(items) == StrictUsedLabelIds(items)
  {
    var strict := StrictUsedLabelIds(items);
    var lenient := UsedLabelIds(items);
    assert lenient.value == strict.value by {
      forall k ensures k in lenient.value <==> k in strict.value {
        assert k in lenient.value <==> Attached(items, k);
      }
    }
  }

  /** With no id in use, every label of a list of id labels is unused. */
  lemma {:induction false} NothingUsedKeepsAll(labels: seq<Json>)
    requires AllIdLabels(labels)
    ensures UnusedLabels(labels, {}) == Ok(labels)
    decreases |labels|
  {
    if labels != [] {
      IdLabelsCons(labels);
      NothingUsedKeepsAll(labels[1..]);
      assert [labels[0]] + labels[1..] == labels;
    }
  }

  /**
   * An empty item list: `find_and_delete_empty_labels` goes on and marks
   * every label for deletion, while `get_empty_labels` reports None.
   */
  lemma EmptyItemListMarksEveryLabel(labels: seq<Json>)
    requires AllIdLabels(labels)
    ensures LabelsToDelete(JArr(labels), JArr([])) == Ok(labels)
    ensures EmptyLabels(JArr(labels), JArr([])) == Ok(JNull)
  {
    NothingUsedKeepsAll(labels);
  }

  /**
   * What `find_and_delete_empty_labels` deletes is what
   * `get_empty_labels` reports, whenever both get that far.
   */
  lemma CleanupDeletesReportedLabels(allLabels: Json, allItems: Json)
    requires Truthy(allLabels) && Truthy(allItems)
    requires LabelsToDelete(allLabels, allItems).Ok?
    requires forall x :: x in LabelsToDelete(allLabels, allItems).value ==> x.JObj? && "name" in x.fields
    ensures LabelsToDelete(allLabels, allItems).value == [] ==> EmptyLabels(allLabels, allItems) == Ok(JNull)
    ensures LabelsToDelete(allLabels, allItems).value != [] ==>
      EmptyLabels(allLabels, allItems) == Ok(JArr(LabelsToDelete(allLabels, allItems).value))
  {
    var items := Elements(allItems).value;
    var labels := Elements(allLabels).value;
    StrictAgreesWithLenient(items);
    var used := StrictUsedLabelIds(items).value;
    assert UsedLabelIds(items) == Ok(used);
    assert UnusedLabels(labels, used) == LabelsToDelete(allLabels, allItems);
  }
}
