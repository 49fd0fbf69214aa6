/**
 * The HomeboxAPI accessors as functions over the client state: each one
 * issues its requests through `request` and massages what comes back.
 * Every exception `request` raises (a failed login) propagates out of
 * the accessor unchanged.
 */
module Accessors {
  import opened PyValues
  import opened PyText
  import opened Dispatch
  import opened Payloads
  import opened Filenames

  /** The methods the accessors pass are all in the table, so `request` never rejects them. */
  lemma AccessorVerbsSupported()
    ensures ParseVerb(Upper("GET")) == Some(GET)
    ensures ParseVerb(Upper("PUT")) == Some(PUT)
    ensures ParseVerb(Upper("DELETE")) == Some(DELETE)
  {
    ParseVerbName(GET);
    ParseVerbName(PUT);
    ParseVerbName(DELETE);
  }

  // ---------------- get_all_labels / get_item ----------------

  /**
   * `request("GET", endpoint) or []`: the fetched value, or an empty list
   * in place of every falsy value, None (a failed request) included.
   */
  function GetOrEmpty(s: ApiState, endpoint: string): (r: Step<Json>)
    ensures Advances(s, r.state)
    ensures r.state == RequestSpec(s, "GET", endpoint, JNull).state
    ensures r.result.Err? ==> IsLoginError(r.result.error)
    ensures r.result.Ok? ==> Truthy(r.result.value) || r.result.value == JArr([])
    ensures r.result.Ok? <==> RequestSpec(s, "GET", endpoint, JNull).result.Ok?
    ensures r.result.Ok? ==> r.result.value == Or(RequestSpec(s, "GET", endpoint, JNull).result.value, JArr([]))
  {
    AccessorVerbsSupported();
    var q := RequestSpec(s, "GET", endpoint, JNull);
    match q.result
    case Err(e) => Step(Err(e), q.state)
    case Ok(v) => Step(Ok(Or(v, JArr([]))), q.state)
  }

  // ---------------- get_all_items / get_archived_items ----------------

  /** `get_all_items`: the item envelope unwrapped, `[]` for a failed request or an unexpected shape. */
  function GetAllItemsSpec(s: ApiState): (r: Step<Json>)
    ensures Advances(s, r.state)
    ensures r.state == RequestSpec(s, "GET", "items", JNull).state
    ensures r.result.Err? ==> IsLoginError(r.result.error)
    ensures r.result.Ok? <==> RequestSpec(s, "GET", "items", JNull).result.Ok?
    ensures r.result.Ok? ==> r.result.value == ItemsFrom(RequestSpec(s, "GET", "items", JNull).result.value)
  {
    AccessorVerbsSupported();
    var q := RequestSpec(s, "GET", "items", JNull);
    match q.result
    case Err(e) => Step(Err(e), q.state)
    case Ok(v) => Step(Ok(ItemsFrom(v)), q.state)
  }

  /** A GET that fails without a 401 yields None, with a valid token. */
  lemma FailedGetIsNone(s: ApiState, endpoint: string)
    requires Cached(s.token)
    requires Next(s).TransportError? || (IsHttpError(Next(s).code) && Next(s).code != 401)
    ensures RequestSpec(s, "GET", endpoint, JNull).result == Ok(JNull)
  {
    AccessorVerbsSupported();
    RequestWithCachedToken(s, "GET", endpoint, JNull);
    ClassifyIsNoneOnFailure(Next(s));
  }

  /** A fetch that fails without a 401 leaves both list fetches with an empty list. */
  lemma FailedFetchFallsBackToEmpty(s: ApiState, endpoint: string)
    requires Cached(s.token)
    requires Next(s).TransportError? || (IsHttpError(Next(s).code) && Next(s).code != 401)
    ensures GetOrEmpty(s, endpoint).result == Ok(JArr([]))
    ensures GetAllItemsSpec(s).result == Ok(JArr([]))
  {
    FailedGetIsNone(s, endpoint);
    FailedGetIsNone(s, "items");
  }

  /**
   * `get_archived_items`: the archived dicts among the fetched items, in
   * order; an empty list when nothing was fetched.
   */
  function GetArchivedItemsSpec(s: ApiState): (r: Step<Json>)
    ensures Advances(s, r.state)
    ensures r.state == GetAllItemsSpec(s).state
    ensures r.result.Err? ==> IsLoginError(r.result.error) || r.result.error == TypeError
    ensures r.result.Ok? ==> r.result.value.JArr? && forall x :: x in r.result.value.elems ==> IsArchived(x)
    ensures GetAllItemsSpec(s).result.Ok? && GetAllItemsSpec(s).result.value.JArr? ==>
      r.result == Ok(JArr(Filter(GetAllItemsSpec(s).result.value.elems, IsArchived)))
  {
    var g := GetAllItemsSpec(s);
    match g.result
    case Err(e) => Step(Err(e), g.state)
    case Ok(items) => Step(ArchivedItems(items), g.state)
  }

  // ---------------- get_attachments ----------------

  /** `get_attachments`: the fetched item's attachment list, `[]` when there is none to read. */
  function GetAttachmentsSpec(s: ApiState, itemId: string): (r: Step<seq<Json>>)
    ensures Advances(s, r.state)
    ensures r.state == GetOrEmpty(s, "items/" + itemId).state
    ensures r.result.Err? ==> IsLoginError(r.result.error)
    ensures r.result.Ok? <==> GetOrEmpty(s, "items/" + itemId).result.Ok?
    ensures r.result.Ok? ==> r.result.value == AttachmentsOf(GetOrEmpty(s, "items/" + itemId).result.value)
  {
    var g := GetOrEmpty(s, "items/" + itemId);
    match g.result
    case Err(e) => Step(Err(e), g.state)
    case Ok(item) => Step(Ok(AttachmentsOf(item)), g.state)
  }

  // ---------------- delete_label / delete_attachment ----------------

  /** A DELETE whose success is the value True coming back from `request`. */
  function DeleteSpec(s: ApiState, endpoint: string): (r: Step<bool>)
    ensures Advances(s, r.state)
    ensures r.state == RequestSpec(s, "DELETE", endpoint, JNull).state
    ensures r.result.Err? ==> IsLoginError(r.result.error)
    ensures r.result.Ok? <==> RequestSpec(s, "DELETE", endpoint, JNull).result.Ok?
    ensures r.result.Ok? ==> (r.result.value <==> RequestSpec(s, "DELETE", endpoint, JNull).result.value == JBool(true))
  {
    AccessorVerbsSupported();
    var q := RequestSpec(s, "DELETE", endpoint, JNull);
    match q.result
    case Err(e) => Step(Err(e), q.state)
    case Ok(v) => Step(Ok(ConfirmsDeletion(v)), q.state)
  }

  function LabelEndpoint(labelId: string): string
  {
    "labels/" + labelId
  }

  function AttachmentEndpoint(itemId: string, attachmentId: string): string
  {
    "items/" + itemId + "/attachments/" + attachmentId
  }

  /** With a valid token and no 401, a deletion is one DELETE whose classified answer decides the result. */
  lemma DeleteAnswered(s: ApiState, endpoint: string)
    requires Cached(s.token)
    requires !(Next(s).Status? && Next(s).code == 401)
    ensures DeleteSpec(s, endpoint)
      == Step(Ok(ConfirmsDeletion(Classify(Next(s)))),
              s.(script := Drop(s.script, 1), sent := s.sent + [Message(DELETE, s.baseUrl + "/" + endpoint, Some(Bearer(s.token)), JNull)]))
  {
    AccessorVerbsSupported();
    RequestWithCachedToken(s, "DELETE", endpoint, JNull);
  }

  /** The answers `delete_label` and `delete_attachment` accept as a confirmed deletion. */
  lemma ConfirmedAnswers(o: Outcome)
    ensures ConfirmsDeletion(Classify(o)) <==>
      o.Status? && (o.code == 204 || ((o.code == 200 || o.code == 201) && o.body == JBool(true)))
  {
  }

  /**
   * With a valid token a deletion is reported exactly when the server
   * answers 204, or 200/201 with the JSON value `true`; a 200 with any
   * other body, an error status or a transport failure is a failure.
   */
  lemma DeletionConfirmedIff(s: ApiState, endpoint: string)
    requires Cached(s.token)
    requires !(Next(s).Status? && Next(s).code == 401)
    ensures DeleteSpec(s, endpoint).result ==
      Ok(Next(s).Status? && (Next(s).code == 204 || ((Next(s).code == 200 || Next(s).code == 201) && Next(s).body == JBool(true))))
    ensures DeleteSpec(s, endpoint).state.sent == s.sent + [Message(DELETE, s.baseUrl + "/" + endpoint, Some(Bearer(s.token)), JNull)]
  {
    DeleteAnswered(s, endpoint);
    ConfirmedAnswers(Next(s));
  }

  // ---------------- download_attachment_by_id ----------------

  /**
   * The name `download_attachment_by_id` saves an attachment under, after
   * fetching the item's attachments; None when no attachment has the id.
   */
  function DownloadFileNameSpec(s: ApiState, itemId: string, attachmentId: string): (r: Step<Option<string>>)
    ensures Advances(s, r.state)
    ensures r.state == GetAttachmentsSpec(s, itemId).state
    ensures r.result.Ok? ==> GetAttachmentsSpec(s, itemId).result.Ok?
    ensures r.result == Ok(None) <==>
      GetAttachmentsSpec(s, itemId).result.Ok? && FindAttachment(GetAttachmentsSpec(s, itemId).result.value, attachmentId) == Ok(None)
    ensures r.result.Ok? && r.result.value.Some? ==>
      var found := FindAttachment(GetAttachmentsSpec(s, itemId).result.value, attachmentId);
      found.Ok? && found.value.Some? && DownloadFileName(found.value.value, attachmentId) == Ok(r.result.value.value)
  {
    var a := GetAttachmentsSpec(s, itemId);
    match a.result
    case Err(e) => Step(Err(e), a.state)
    case Ok(attachments) =>
      match FindAttachment(attachments, attachmentId)
      case Err(e) => Step(Err(e), a.state)
      case Ok(None) => Step(Ok(None), a.state)
      case Ok(Some(attachment)) =>
        match DownloadFileName(attachment, attachmentId)
        case Err(e) => Step(Err(e), a.state)
        case Ok(name) => Step(Ok(Some(name)), a.state)
  }

  // ---------------- update_attachment ----------------

  /**
   * `update_attachment`: no request at all when the payload is rejected or
   * empty; otherwise one PUT of the payload, whose response counts only
   * when it is a non-empty dict without an `error` key.
   */
  function UpdateAttachmentSpec(s: ApiState, itemId: string, attachmentId: string, newType: Json, newName: Json, newPrimary: Json): (r: Step<Json>)
    ensures Advances(s, r.state)
    ensures UpdatePayload(newType, newName, newPrimary).None? ==> r == Step(Ok(JNull), s)
    ensures UpdatePayload(newType, newName, newPrimary).Some? ==>
      r.state == RequestSpec(s, "PUT", AttachmentEndpoint(itemId, attachmentId), JObj(UpdatePayload(newType, newName, newPrimary).value)).state
    ensures r.result.Err? ==> IsLoginError(r.result.error)
    ensures r.result.Ok? ==> r.result.value == JNull || (r.result.value.JObj? && "error" !in r.result.value.fields)
    ensures UpdatePayload(newType, newName, newPrimary).Some? ==>
      var q := RequestSpec(s, "PUT", AttachmentEndpoint(itemId, attachmentId), JObj(UpdatePayload(newType, newName, newPrimary).value));
      && (r.result.Err? <==> q.result.Err?)
      && (q.result.Ok? ==> r.result == Ok(UpdateOutcome(q.result.value)))
  {
    AccessorVerbsSupported();
    match UpdatePayload(newType, newName, newPrimary)
    case None => Step(Ok(JNull), s)
    case Some(data) =>
      var q := RequestSpec(s, "PUT", AttachmentEndpoint(itemId, attachmentId), JObj(data));
      match q.result
      case Err(e) => Step(Err(e), q.state)
      case Ok(v) => Step(Ok(UpdateOutcome(v)), q.state)
  }

  /** With a valid token the payload goes out in one PUT and the answer decides the result. */
  lemma UpdateSendsPayload(s: ApiState, itemId: string, attachmentId: string, newType: Json, newName: Json, newPrimary: Json)
    requires Cached(s.token)
    requires UpdatePayload(newType, newName, newPrimary).Some?
    requires !(Next(s).Status? && Next(s).code == 401)
    ensures var r := UpdateAttachmentSpec(s, itemId, attachmentId, newType, newName, newPrimary);
      && r.result == Ok(UpdateOutcome(Classify(Next(s))))
      && r.state.sent == s.sent + [Message(PUT, s.baseUrl + "/" + AttachmentEndpoint(itemId, attachmentId), Some(Bearer(s.token)),
                                           JObj(UpdatePayload(newType, newName, newPrimary).value))]
  {
    AccessorVerbsSupported();
    RequestWithCachedToken(s, "PUT", AttachmentEndpoint(itemId, attachmentId), JObj(UpdatePayload(newType, newName, newPrimary).value));
  }

  // ---------------- get_empty_labels ----------------

  /**
   * `get_empty_labels`: fetch the labels, then the items, and report the
   * unused labels (None when there are none or nothing was fetched).
   */
  function GetEmptyLabelsSpec(s: ApiState): (r: Step<Json>)
    ensures Advances(s, r.state)
    ensures r.result.Ok? ==> r.result.value == JNull || (r.result.value.JArr? && r.result.value.elems != [])
    ensures r.result.Ok? && r.result.value.JArr? ==> forall x :: x in r.result.value.elems ==> x.JObj? && "name" in x.fields
    ensures GetOrEmpty(s, "labels").result.Ok? && GetAllItemsSpec(GetOrEmpty(s, "labels").state).result.Ok? ==>
      r == Step(EmptyLabels(GetOrEmpty(s, "labels").result.value, GetAllItemsSpec(GetOrEmpty(s, "labels").state).result.value),
                GetAllItemsSpec(GetOrEmpty(s, "labels").state).state)
  {
    var l := GetOrEmpty(s, "labels");
    match l.result
    case Err(e) => Step(Err(e), l.state)
    case Ok(allLabels) =>
      var i := GetAllItemsSpec(l.state);
      AdvancesTransitive(s, l.state, i.state);
      match i.result
      case Err(e) => Step(Err(e), i.state)
      case Ok(allItems) => Step(EmptyLabels(allLabels, allItems), i.state)
  }

  // ---------------- find_and_delete_empty_labels ----------------

  /** `f"{label_id}"` for an id label: the text of its id. */
  function IdText(lbl: Json): string
    requires IsIdLabel(lbl)
  {
    Show(lbl.fields["id"])
  }

  /** A label whose `name` can be read, as the delete loop's call does. */
  predicate Named(lbl: Json)
  {
    lbl.JObj? && "name" in lbl.fields
  }

  /** The DELETE `find_and_delete_empty_labels` sends for one label. */
  function DeleteMessage(baseUrl: string, auth: string, lbl: Json): Message
    requires IsIdLabel(lbl)
  {
    Message(DELETE, baseUrl + "/" + LabelEndpoint(IdText(lbl)), Some(auth), JNull)
  }

  /** The DELETE messages for `labels`, each carrying the Authorization header `auth`. */
  function DeleteMessages(baseUrl: string, auth: string, labels: seq<Json>): (ms: seq<Message>)
    requires forall i :: 0 <= i < |labels| ==> IsIdLabel(labels[i])
    ensures |ms| == |labels|
    ensures forall i :: 0 <= i < |labels| ==> ms[i] == DeleteMessage(baseUrl, auth, labels[i])
  {
    if labels == [] then []
    else [DeleteMessage(baseUrl, auth, labels[0])] + DeleteMessages(baseUrl, auth, labels[1..])
  }

  /** With a valid token and no 401 ahead, one deletion sends one DELETE and keeps the token. */
  lemma DeleteWithValidToken(s: ApiState, endpoint: string)
    ensures Cached(s.token) && NoUnauthorized(s.script) ==>
      && DeleteSpec(s, endpoint).result.Ok?
      && DeleteSpec(s, endpoint).state == s.(script := Drop(s.script, 1),
           sent := s.sent + [Message(DELETE, s.baseUrl + "/" + endpoint, Some(Bearer(s.token)), JNull)])
      && NoUnauthorized(DeleteSpec(s, endpoint).state.script)
  {
    if Cached(s.token) && NoUnauthorized(s.script) {
      assert !(Next(s).Status? && Next(s).code == 401) by {
        if s.script != [] { assert s.script[0] == Next(s); }
      }
      DeleteAnswered(s, endpoint);
      var t := DeleteSpec(s, endpoint).state;
      forall i | 0 <= i < |t.script| ensures !(t.script[i].Status? && t.script[i].code == 401) {
        assert t.script[i] == s.script[i + 1];
      }
    }
  }

  /** Sending `m` and then `rest` leaves the state that sending `[m] + rest` leaves. */
  lemma SendsCompose(s: ApiState, m: Message, rest: seq<Message>)
    ensures var t := s.(script := Drop(s.script, 1), sent := s.sent + [m]);
      t.(script := Drop(t.script, |rest|), sent := t.sent + rest)
      == s.(script := Drop(s.script, 1 + |rest|), sent := s.sent + ([m] + rest))
  {
    DropDrop(s.script, 1, |rest|);
    assert (s.sent + [m]) + rest == s.sent + ([m] + rest);
  }

  /**
   * `for label in unused_labels: delete_label(label["id"], label["name"])`:
   * one DELETE per label, addressed by the text of its id. A label without
   * a name raises before its DELETE; a failed login raises and stops the
   * loop; a deletion the server refuses does not.
   */
  function DeleteEach(s: ApiState, labels: seq<Json>): (r: Step<()>)
    requires forall i :: 0 <= i < |labels| ==> IsIdLabel(labels[i])
    ensures Advances(s, r.state)
    ensures |r.state.sent| <= |s.sent| + 4 * |labels|
    ensures r.result.Err? ==> IsLoginError(r.result.error) || r.result.error == KeyError("name")
    ensures labels != [] && !Named(labels[0]) ==> r == Step(Err(KeyError("name")), s)
    decreases |labels|
  {
    if labels == [] then Step(Ok(()), s)
    else
      var lbl := labels[0];
      if !Named(lbl) then Step(Err(KeyError("name")), s)
      else
        var d := DeleteSpec(s, LabelEndpoint(IdText(lbl)));
        match d.result
        case Err(e) => Step(Err(e), d.state)
        case Ok(_) =>
          var rest := DeleteEach(d.state, labels[1..]);
          AdvancesTransitive(s, d.state, rest.state);
          rest
  }

  /**
   * With a valid token, no 401 ahead and every label named, the loop
   * deletes every label in order: one DELETE each, addressed by its id,
   * whatever the server answers.
   */
  lemma {:induction false} DeleteEachWithValidToken(s: ApiState, labels: seq<Json>)
    requires forall i :: 0 <= i < |labels| ==> IsIdLabel(labels[i])
    requires Cached(s.token) && NoUnauthorized(s.script)
    requires forall i :: 0 <= i < |labels| ==> Named(labels[i])
    ensures DeleteEach(s, labels)
      == Step(Ok(()), s.(script := Drop(s.script, |labels|), sent := s.sent + DeleteMessages(s.baseUrl, Bearer(s.token), labels)))
    decreases |labels|
  {
    if labels != [] {
      var auth := Bearer(s.token);
      var t := s.(script := Drop(s.script, 1), sent := s.sent + [DeleteMessage(s.baseUrl, auth, labels[0])]);
      DeleteEachFirst(s, labels);
      DeleteEachWithValidToken(t, labels[1..]);
      SendsCompose(s, DeleteMessage(s.baseUrl, auth, labels[0]), DeleteMessages(s.baseUrl, auth, labels[1..]));
      assert [DeleteMessage(s.baseUrl, auth, labels[0])] + DeleteMessages(s.baseUrl, auth, labels[1..])
        == DeleteMessages(s.baseUrl, auth, labels);
    }
  }

  /** With a valid token, deleting a named first label sends its DELETE and goes on with the rest. */
  lemma DeleteEachFirst(s: ApiState, labels: seq<Json>)
    requires forall i :: 0 <= i < |labels| ==> IsIdLabel(labels[i])
    requires Cached(s.token) && NoUnauthorized(s.script)
    requires labels != [] && Named(labels[0])
    ensures var t := s.(script := Drop(s.script, 1), sent := s.sent + [DeleteMessage(s.baseUrl, Bearer(s.token), labels[0])]);
      && DeleteEach(s, labels) == DeleteEach(t, labels[1..])
      && NoUnauthorized(t.script)
  {
    DeleteWithValidToken(s, LabelEndpoint(IdText(labels[0])));
  }

  /**
   * `find_and_delete_empty_labels`: fetch the labels, then the items;
   * stop when there are no labels; otherwise delete the labels no item
   * refers to. Malformed items are not skipped, and an empty item list
   * deletes every label.
   */
  function FindAndDeleteSpec(s: ApiState): (r: Step<()>)
    ensures Advances(s, r.state)
  {
    var l := GetOrEmpty(s, "labels");
    match l.result
    case Err(e) => Step(Err(e), l.state)
    case Ok(allLabels) =>
      var i := GetAllItemsSpec(l.state);
      AdvancesTransitive(s, l.state, i.state);
      match i.result
      case Err(e) => Step(Err(e), i.state)
      case Ok(allItems) =>
        if !Truthy(allLabels) then Step(Ok(()), i.state)
        else
          match LabelsToDelete(allLabels, allItems)
          case Err(e) => Step(Err(e), i.state)
          case Ok(unused) =>
            if unused == [] then Step(Ok(()), i.state)
            else
              LabelsToDeleteAreIdLabels(allLabels, allItems);
              var d := DeleteEach(i.state, unused);
              AdvancesTransitive(s, i.state, d.state);
              d
  }
  /** The GET `request` sends for `endpoint` with a cached token. */
  function CachedGet(s: ApiState, endpoint: string): Message
  {
    Message(GET, s.baseUrl + "/" + endpoint, Some(Bearer(s.token)), JNull)
  }

  /** With a cached token and no 401 ahead, `get_all_labels` is one GET whose answer, or `[]`, is the result. */
  lemma CachedLabelsFetch(s: ApiState)
    requires Cached(s.token) && NoUnauthorized(s.script)
    ensures GetOrEmpty(s, "labels")
      == Step(Ok(Or(Classify(Next(s)), JArr([]))), s.(script := Drop(s.script, 1), sent := s.sent + [CachedGet(s, "labels")]))
    ensures NoUnauthorized(Drop(s.script, 1))
  {
    AccessorVerbsSupported();
    CachedCall(s, Call("GET", "labels", JNull));
  }

  /** With a cached token and no 401 ahead, `get_all_items` is one GET whose answer is unwrapped. */
  lemma CachedItemsFetch(s: ApiState)
    requires Cached(s.token) && NoUnauthorized(s.script)
    ensures GetAllItemsSpec(s)
      == Step(Ok(ItemsFrom(Classify(Next(s)))), s.(script := Drop(s.script, 1), sent := s.sent + [CachedGet(s, "items")]))
    ensures NoUnauthorized(Drop(s.script, 1))
  {
    AccessorVerbsSupported();
    CachedCall(s, Call("GET", "items", JNull));
  }

  /** The state after the two GETs of the cleanup with a cached token. */
  function AfterFetches(s: ApiState): ApiState
  {
    var s1 := s.(script := Drop(s.script, 1), sent := s.sent + [CachedGet(s, "labels")]);
    s1.(script := Drop(s1.script, 1), sent := s1.sent + [CachedGet(s, "items")])
  }

  /** With a cached token and no 401 ahead, the cleanup's two fetches are one GET each. */
  lemma CachedFetches(s: ApiState)
    requires Cached(s.token) && NoUnauthorized(s.script)
    ensures var s1 := s.(script := Drop(s.script, 1), sent := s.sent + [CachedGet(s, "labels")]);
      && GetOrEmpty(s, "labels") == Step(Ok(Or(Classify(Next(s)), JArr([]))), s1)
      && GetAllItemsSpec(s1) == Step(Ok(ItemsFrom(Classify(Next(s.(script := Drop(s.script, 1)))))), AfterFetches(s))
      && NoUnauthorized(AfterFetches(s).script)
  {
    var s1 := s.(script := Drop(s.script, 1), sent := s.sent + [CachedGet(s, "labels")]);
    CachedLabelsFetch(s);
    CachedItemsFetch(s1);
    assert CachedGet(s1, "items") == CachedGet(s, "items");
  }

  /** Two GETs and then `rest` leave the state that sending all of them at once leaves. */
  lemma FetchesThenRest(s: ApiState, g1: Message, g2: Message, rest: seq<Message>)
    ensures var s1 := s.(script := Drop(s.script, 1), sent := s.sent + [g1]);
      var s2 := s1.(script := Drop(s1.script, 1), sent := s1.sent + [g2]);
      s2.(script := Drop(s2.script, |rest|), sent := s2.sent + rest)
        == s.(script := Drop(s.script, 2 + |rest|), sent := s.sent + [g1, g2] + rest)
  {
    DropDrop(s.script, 1, 1);
    DropDrop(s.script, 2, |rest|);
    assert s.sent + [g1] + [g2] + rest == s.sent + [g1, g2] + rest;
  }

  /** Once both lists are fetched, the cleanup is the delete loop over the labels marked for deletion. */
  lemma FindAndDeleteAfterFetches(s: ApiState, allLabels: Json, allItems: Json, s1: ApiState, s2: ApiState, unused: seq<Json>)
    requires GetOrEmpty(s, "labels") == Step(Ok(allLabels), s1)
    requires GetAllItemsSpec(s1) == Step(Ok(allItems), s2)
    requires LabelsToDelete(allLabels, allItems) == Ok(unused)
    requires forall i :: 0 <= i < |unused| ==> IsIdLabel(unused[i])
    requires Truthy(allLabels) || allLabels == JArr([])
    ensures FindAndDeleteSpec(s) == DeleteEach(s2, unused)
  {
    if !Truthy(allLabels) {
      assert unused == [];
    }
  }

  /** With a cached token and no 401 ahead, the cleanup fetches both lists and runs the delete loop from there. */
  lemma CachedCleanup(s: ApiState, unused: seq<Json>)
    requires Cached(s.token) && NoUnauthorized(s.script)
    requires LabelsToDelete(Or(Classify(Next(s)), JArr([])), ItemsFrom(Classify(Next(s.(script := Drop(s.script, 1)))))) == Ok(unused)
    requires forall i :: 0 <= i < |unused| ==> IsIdLabel(unused[i])
    ensures FindAndDeleteSpec(s) == DeleteEach(AfterFetches(s), unused)
    ensures NoUnauthorized(AfterFetches(s).script)
  {
    var s1 := s.(script := Drop(s.script, 1), sent := s.sent + [CachedGet(s, "labels")]);
    CachedFetches(s);
    FindAndDeleteAfterFetches(s, Or(Classify(Next(s)), JArr([])), ItemsFrom(Classify(Next(s.(script := Drop(s.script, 1))))), s1, AfterFetches(s), unused);
  }

  /**
   * The whole cleanup with a valid token and no 401 ahead: a GET of the
   * labels, a GET of the items, then one DELETE per unused label, in
   * order, whatever the server answers to each.
   */
  lemma FindAndDeleteDeletesUnused(s: ApiState, unused: seq<Json>)
    requires Cached(s.token) && NoUnauthorized(s.script)
    requires LabelsToDelete(Or(Classify(Next(s)), JArr([])), ItemsFrom(Classify(Next(s.(script := Drop(s.script, 1)))))) == Ok(unused)
    requires forall i :: 0 <= i < |unused| ==> IsIdLabel(unused[i]) && Named(unused[i])
    ensures FindAndDeleteSpec(s)
      == Step(Ok(()), s.(script := Drop(s.script, 2 + |unused|),
                         sent := s.sent + [CachedGet(s, "labels"), CachedGet(s, "items")] + DeleteMessages(s.baseUrl, Bearer(s.token), unused)))
  {
    var s2 := AfterFetches(s);
    CachedCleanup(s, unused);
    DeleteEachWithValidToken(s2, unused);
    FetchesThenRest(s, CachedGet(s, "labels"), CachedGet(s, "items"), DeleteMessages(s.baseUrl, Bearer(s.token), unused));
  }
}
