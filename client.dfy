/**
 * The `HomeboxAPI` class: the cached token is a field that `login`,
 * `get_headers` and `request` overwrite, and the transport (the scripted
 * answers and the log of messages) is state the methods advance. Every
 * method is proved to return, and to leave behind, exactly what the
 * corresponding function over `ApiState` describes, so the properties
 * proved about those functions hold of the class.
 */
module Client {
  import opened PyValues
  import opened PyText
  import opened Dispatch
  import opened Payloads
  import opened Filenames
  import opened Accessors

  class HomeboxApi {
    const baseUrl: string
    const credentials: Option<(string, string)>
    var token: Option<string>
    var script: seq<Outcome>
    var sent: seq<Message>
    var logins: nat

    /** The client's state as a value. */
    function State(): ApiState
      reads this
    {
      ApiState(baseUrl, credentials, token, script, sent, logins)
    }

    /** A fresh client: no token cached, nothing sent yet. */
    constructor(baseUrl: string, credentials: Option<(string, string)>, script: seq<Outcome>)
      ensures State() == ApiState(baseUrl, credentials, None, script, [], 0)
    {
      this.baseUrl := baseUrl;
      this.credentials := credentials;
      token := None;
      this.script := script;
      sent := [];
      logins := 0;
    }

    /** One message over the transport: it takes the next scripted answer and is logged. */
    method Send(m: Message) returns (o: Outcome)
      modifies this
      ensures (o, State()) == Exchange(old(State()), m)
    {
      if script == [] {
        o := TransportError;
      } else {
        o := script[0];
        script := script[1..];
      }
      sent := sent + [m];
    }

    /** `login`. */
    method Login() returns (r: Result<Option<string>>)
      modifies this
      ensures Step(r, State()) == LoginSpec(old(State()))
    {
      if Cached(token) {
        return Ok(token);
      }
      logins := logins + 1;
      if !HasCredentials(State()) {
        return Err(CredentialsUnavailable);
      }
      var (username, password) := credentials.value;
      var outcome := Send(LoginMessage(baseUrl, username, password));
      if outcome.TransportError? || IsHttpError(outcome.code) {
        r := Err(LoginUnreachable);
      } else if outcome.code != 200 {
        r := Ok(None);
      } else if !outcome.body.JObj? {
        r := Err(LoginUnexpected);
      } else {
        var raw := Get(outcome.body.fields, "token", JNull);
        if !Truthy(raw) {
          r := Err(NoTokenInResponse);
        } else if !raw.JStr? {
          r := Err(LoginUnexpected);
        } else {
          token := Some(CleanToken(raw.s));
          r := Ok(token);
        }
      }
    }

    /** `get_headers`: the Authorization header value. */
    method GetHeaders() returns (r: Result<string>)
      modifies this
      ensures Step(r, State()) == GetHeadersSpec(old(State()))
    {
      if !Cached(token) {
        var login := Login();
        if login.Err? {
          return Err(login.error);
        }
        token := login.value;
      }
      r := Ok(Bearer(token));
    }

    /** `request(method, endpoint, json)`, with its single retry after a 401. */
    method Request(httpMethod: string, endpoint: string, body: Json) returns (r: Result<Json>)
      modifies this
      ensures Step(r, State()) == RequestSpec(old(State()), httpMethod, endpoint, body)
    {
      var url := baseUrl + "/" + endpoint;
      var auth := GetHeaders();
      if auth.Err? {
        return Err(auth.error);
      }
      var verb := ParseVerb(Upper(httpMethod));
      if verb.None? {
        return Err(UnsupportedMethod(httpMethod));
      }
      var outcome := Send(Message(verb.value, url, Some(auth.value), body));
      if outcome.Status? && outcome.code == 401 {
        token := None;
        auth := GetHeaders();
        if auth.Err? {
          return Err(auth.error);
        }
        outcome := Send(Message(verb.value, url, Some(auth.value), body));
      }
      r := Ok(Classify(outcome));
    }

    /** `get_all_labels`. */
    method GetAllLabels() returns (r: Result<Json>)
      modifies this
      ensures Step(r, State()) == GetOrEmpty(old(State()), "labels")
    {
      r := Request("GET", "labels", JNull);
      if r.Ok? {
        r := Ok(Or(r.value, JArr([])));
      }
    }

    /** `get_item`. */
    method GetItem(itemId: string) returns (r: Result<Json>)
      modifies this
      ensures Step(r, State()) == GetOrEmpty(old(State()), "items/" + itemId)
    {
      r := Request("GET", "items/" + itemId, JNull);
      if r.Ok? {
        r := Ok(Or(r.value, JArr([])));
      }
    }

    /** `delete_label`. */
    method DeleteLabel(labelId: string) returns (r: Result<bool>)
      modifies this
      ensures Step(r, State()) == DeleteSpec(old(State()), LabelEndpoint(labelId))
    {
      var response := Request("DELETE", LabelEndpoint(labelId), JNull);
      if response.Err? {
        return Err(response.error);
      }
      r := Ok(ConfirmsDeletion(response.value));
    }

    /** `get_all_items`. */
    method GetAllItems() returns (r: Result<Json>)
      modifies this
      ensures Step(r, State()) == GetAllItemsSpec(old(State()))
    {
      var response := Request("GET", "items", JNull);
      if response.Err? {
        return Err(response.error);
      }
      r := Ok(ItemsFrom(response.value));
    }

    /** `get_archived_items`. */
    method GetArchivedItems() returns (r: Result<Json>)
      modifies this
      ensures Step(r, State()) == GetArchivedItemsSpec(old(State()))
    {
      var items := GetAllItems();
      if items.Err? {
        return Err(items.error);
      }
      r := ArchivedItems(items.value);
    }

    /** `get_attachments`. */
    method GetAttachments(itemId: string) returns (r: Result<seq<Json>>)
      modifies this
      ensures Step(r, State()) == GetAttachmentsSpec(old(State()), itemId)
    {
      var item := GetItem(itemId);
      if item.Err? {
        return Err(item.error);
      }
      r := Ok(AttachmentsOf(item.value));
    }

    /** The file-name part of `download_attachment_by_id`. */
    method DownloadFileNameFor(itemId: string, attachmentId: string) returns (r: Result<Option<string>>)
      modifies this
      ensures Step(r, State()) == DownloadFileNameSpec(old(State()), itemId, attachmentId)
    {
      var attachments := GetAttachments(itemId);
      if attachments.Err? {
        return Err(attachments.error);
      }
      var found := FindAttachment(attachments.value, attachmentId);
      if found.Err? {
        return Err(found.error);
      }
      if found.value.None? {
        return Ok(None);
      }
      var name := DownloadFileName(found.value.value, attachmentId);
      if name.Err? {
        return Err(name.error);
      }
      r := Ok(Some(name.value));
    }

    /** `delete_attachment`. */
    method DeleteAttachment(itemId: string, attachmentId: string) returns (r: Result<bool>)
      modifies this
      ensures Step(r, State()) == DeleteSpec(old(State()), AttachmentEndpoint(itemId, attachmentId))
    {
      var response := Request("DELETE", AttachmentEndpoint(itemId, attachmentId), JNull);
      if response.Err? {
        return Err(response.error);
      }
      r := Ok(ConfirmsDeletion(response.value));
    }

    /** `update_attachment`. */
    method UpdateAttachment(itemId: string, attachmentId: string, newType: Json, newName: Json, newPrimary: Json) returns (r: Result<Json>)
      modifies this
      ensures Step(r, State()) == UpdateAttachmentSpec(old(State()), itemId, attachmentId, newType, newName, newPrimary)
    {
      var data := BuildPayload(newType, newName, newPrimary);
      if data.None? {
        return Ok(JNull);
      }
      var response := Request("PUT", AttachmentEndpoint(itemId, attachmentId), JObj(data.value));
      if response.Err? {
        return Err(response.error);
      }
      r := Ok(UpdateOutcome(response.value));
    }

    /** `get_empty_labels`. */
    method GetEmptyLabels() returns (r: Result<Json>)
      modifies this
      ensures Step(r, State()) == GetEmptyLabelsSpec(old(State()))
    {
      var allLabels := GetAllLabels();
      if allLabels.Err? {
        return Err(allLabels.error);
      }
      var allItems := GetAllItems();
      if allItems.Err? {
        return Err(allItems.error);
      }
      r := ReportEmptyLabels(allLabels.value, allItems.value);
    }

    /** `find_and_delete_empty_labels`: one `delete_label` call per unused label, in order. */
    method FindAndDeleteEmptyLabels() returns (r: Result<()>)
      modifies this
      ensures Step(r, State()) == FindAndDeleteSpec(old(State()))
    {
      var allLabels := GetAllLabels();
      if allLabels.Err? {
        return Err(allLabels.error);
      }
      var allItems := GetAllItems();
      if allItems.Err? {
        return Err(allItems.error);
      }
      if !Truthy(allLabels.value) {
        return Ok(());
      }
      var unused := LabelsToDelete(allLabels.value, allItems.value);
      if unused.Err? {
        return Err(unused.error);
      }
      var labels := unused.value;
      if labels == [] {
        return Ok(());
      }
      LabelsToDeleteAreIdLabels(allLabels.value, allItems.value);
      r := DeleteLabels(labels);
    }

    /** The loop of `find_and_delete_empty_labels`: one `delete_label` call per label, in order. */
    method DeleteLabels(labels: seq<Json>) returns (r: Result<()>)
      requires forall i :: 0 <= i < |labels| ==> IsIdLabel(labels[i])
      modifies this
      ensures Step(r, State()) == DeleteEach(old(State()), labels)
    {
      ghost var start := State();
      var i := 0;
      while i < |labels|
        invariant 0 <= i <= |labels|
        invariant DeleteEach(State(), labels[i..]) == DeleteEach(start, labels)
      {
        var lbl := labels[i];
        assert labels[i..][0] == lbl && labels[i..][1..] == labels[i + 1..];
        if !Named(lbl) {
          return Err(KeyError("name"));
        }
        var deleted := DeleteLabel(IdText(lbl));
        if deleted.Err? {
          return Err(deleted.error);
        }
        i := i + 1;
      }
      r := Ok(());
    }
  }

  /**
   * The payload `update_attachment` fills field by field: None when the
   * type is not one of the attachment types or when nothing is to change.
   */
  method BuildPayload(newType: Json, newName: Json, newPrimary: Json) returns (data: Option<map<string, Json>>)
    ensures data == UpdatePayload(newType, newName, newPrimary)
  {
    var fields: map<string, Json> := map[];
    if Truthy(newType) {
      if !IsAttachmentType(newType) {
        return None;
      }
      fields := fields["type" := newType];
    }
    if Truthy(newName) {
      fields := fields["name" := newName];
      fields := fields["title" := newName];
    }
    if newPrimary != JNull {
      fields := fields["primary" := newPrimary];
    }
    if fields == map[] {
      return None;
    }
    data := Some(fields);
  }

  /** What `get_empty_labels` reports once labels and items are fetched; the used ids come from its nested loops. */
  method ReportEmptyLabels(allLabels: Json, allItems: Json) returns (r: Result<Json>)
    ensures r == EmptyLabels(allLabels, allItems)
  {
    if !Truthy(allLabels) || !Truthy(allItems) {
      return Ok(JNull);
    }
    var items := Elements(allItems);
    if items.Err? {
      return Err(items.error);
    }
    var used := CollectUsedLabelIds(items.value);
    if used.Err? {
      return Err(used.error);
    }
    r := ReportUnused(allLabels, used.value);
  }

  /** The unused labels among `allLabels`, each of which `get_empty_labels` prints by name. */
  method ReportUnused(allLabels: Json, used: set<Json>) returns (r: Result<Json>)
    ensures r == UnusedReport(allLabels, used)
  {
    var labels := Elements(allLabels);
    if labels.Err? {
      return Err(labels.error);
    }
    var unused := UnusedLabels(labels.value, used);
    if unused.Err? {
      return Err(unused.error);
    }
    if unused.value == [] {
      return Ok(JNull);
    }
    if exists x :: x in unused.value && !Named(x) {
      return Err(KeyError("name"));
    }
    r := Ok(JArr(unused.value));
  }
}
