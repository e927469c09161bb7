/** The attachment handling of the client component
    src/components/EditApplicationModal.tsx: the client-side size check, the count
    sent with an upload, the local attachment list and the category labels. */
module EditModal {
  import opened Js
  import opened Db
  import StudentActions

  /** An attachment row as the component holds it: the row's id and its columns. */
  datatype Entry = Entry(id: string, row: Attachment)

  /** What a server action answered: an object with an optional `error` and an
      optional `data`, or a rejected promise. */
  datatype Reply = Replied(error: Option<string>, data: Option<Entry>) | Threw

  /** `result?.error` is truthy. */
  predicate Failed(reply: Reply)
  {
    reply.Replied? && reply.error.Some? && reply.error.value != ""
  }

  const TooLargeAlert := "ファイルサイズは5MB以下にしてください"

  /** The most entries the local list may hold before uploads are disabled. */
  const MaxEntries: nat := 10

  /** The client-side check: the form's `file` entry is a file of more than 5 MB.
      A text entry has no size, so it passes. */
  predicate TooLargeForClient(form: FormData)
  {
    var f := FormGet(form, "file");
    f.Some? && f.value.File? && f.value.size > StudentActions.MaxFileSize
  }

  /** The form after `formData.append('current_count', n.toString())`. */
  function WithCount(form: FormData, n: nat): (r: FormData)
    ensures |r| == |form| + 1 && r[..|form|] == form
  {
    form + [FormEntry("current_count", Text(DecimalString(n)))]
  }

  /** The count appended by the component reaches the server as that number, as
      long as the form had no `current_count` entry of its own. */
  lemma SentCountRead(form: FormData, n: nat)
    requires FormGet(form, "current_count").None?
    ensures StudentActions.ClientCount(WithCount(form, n)) == Some(n)
  {
    var r := WithCount(form, n);
    assert r[|form|].name == "current_count";
    assert FormGet(r, "current_count") == Some(Text(DecimalString(n)));
    ParseDecimal(n);
  }

  /** The predicate that keeps every entry except those with the given id. */
  function Other(id: string): Entry -> bool
  {
    (e: Entry) => e.id != id
  }

  /** Removing an id keeps exactly the entries with another id, in their order. */
  lemma RemovedExactly(list: seq<Entry>, id: string)
    ensures forall e :: e in Filter(list, Other(id)) <==> e in list && e.id != id
    ensures IsSubsequence(Filter(list, Other(id)), list)
  {
    FilterSound(list, Other(id));
    FilterIsSubsequence(list, Other(id));
  }

  /** Deleting the entry an upload has just prepended gives back the list before
      the upload, when its id was new to the list. */
  lemma DeleteUndoesUpload(list: seq<Entry>, e: Entry)
    requires forall x :: x in list ==> x.id != e.id
    ensures Filter([e] + list, Other(e.id)) == list
  {
    assert ([e] + list)[1..] == list;
    FilterAll(list, Other(e.id));
  }

  /** `getCategoryLabel`: the Japanese label of a known category, any other string
      unchanged. */
  function CategoryLabel(category: string): (shown: string)
    ensures category == "resume" ==> shown == "履歴書"
    ensures category == "cv" ==> shown == "職務経歴書"
    ensures category == "portfolio" ==> shown == "ポートフォリオ"
    ensures shown == category <==> category !in {"resume", "cv", "portfolio"}
  {
    if category == "resume" then "履歴書"
    else if category == "cv" then "職務経歴書"
    else if category == "portfolio" then "ポートフォリオ"
    else category
  }

  /** The categories the upload schema accepts all get different labels. */
  lemma CategoryLabelsDistinct(a: string, b: string)
    requires a in {"resume", "cv", "portfolio", "other"} && b in {"resume", "cv", "portfolio", "other"}
    requires a != b
    ensures CategoryLabel(a) != CategoryLabel(b)
  {
  }

  /** The component's state: the `application_attachments` prop it was given, the
      local list it shows, and whether an upload is running. */
  class Modal {
    const propAttachments: Option<seq<Entry>>
    var attachments: seq<Entry>
    var uploading: bool

    /** The local list starts as the prop, or empty when the prop is missing. */
    constructor (prop: Option<seq<Entry>>)
      ensures propAttachments == prop
      ensures attachments == (if prop.Some? then prop.value else [])
      ensures !uploading
    {
      propAttachments := prop;
      attachments := if prop.Some? then prop.value else [];
      uploading := false;
    }

    /** `application.application_attachments?.length || 0`: the count is that of the
        prop, not of the local list. */
    function SentCount(): (n: nat)
      ensures propAttachments.None? ==> n == 0
      ensures propAttachments.Some? ==> n == |propAttachments.value|
    {
      if propAttachments.Some? then |propAttachments.value| else 0
    }

    /** The upload button is disabled while an upload runs or once the local list
        holds ten entries. */
    predicate UploadDisabled()
      reads this
    {
      uploading || |attachments| >= MaxEntries
    }

    /** While the prop and the local list agree, an enabled button sends a count the
        server's count check lets through. */
    lemma EnabledPassesCountCheck(file: Option<FormValue>, category: Option<string>, owned: bool)
      requires !UploadDisabled() && SentCount() == |attachments|
      ensures StudentActions.UploadRejection(file, category, Some(SentCount()), owned) != Some(StudentActions.TooManyMessage)
    {
    }

    /** `handleFileUpload`. `sent` is the form handed to `uploadAttachment` (None
        when the client check stops it) and `alert` the message shown. A rejected
        promise leaves `uploading` set. */
    method HandleFileUpload(form: FormData, reply: Reply) returns (sent: Option<FormData>, alert: Option<string>)
      modifies this
      ensures TooLargeForClient(form) ==>
                sent == None && alert == Some(TooLargeAlert) && !uploading && attachments == old(attachments)
      ensures !TooLargeForClient(form) ==> sent == Some(WithCount(form, SentCount()))
      ensures !TooLargeForClient(form) && reply.Threw? ==>
                uploading && alert == None && attachments == old(attachments)
      ensures !TooLargeForClient(form) && Failed(reply) ==>
                !uploading && alert == Some(reply.error.value) && attachments == old(attachments)
      ensures !TooLargeForClient(form) && reply.Replied? && !Failed(reply) ==>
                !uploading && alert == None &&
                attachments == (if reply.data.Some? then [reply.data.value] + old(attachments) else old(attachments))
    {
      uploading := true;
      if TooLargeForClient(form) {
        uploading := false;
        return None, Some(TooLargeAlert);
      }
      sent := Some(WithCount(form, SentCount()));
      alert := None;
      if reply.Threw? {
        return;
      }
      uploading := false;
      if Failed(reply) {
        alert := Some(reply.error.value);
      } else if reply.data.Some? {
        attachments := [reply.data.value] + attachments;
      }
    }

    /** `handleDeleteFile`. `confirmed` is the user's answer to the confirmation
        dialog and `called` whether `deleteAttachment` was called. */
    method HandleDeleteFile(attachmentId: string, confirmed: bool, reply: Reply) returns (called: bool, alert: Option<string>)
      modifies this
      ensures uploading == old(uploading)
      ensures called <==> confirmed
      ensures !confirmed || reply.Threw? ==> alert == None && attachments == old(attachments)
      ensures confirmed && Failed(reply) ==> alert == Some(reply.error.value) && attachments == old(attachments)
      ensures confirmed && reply.Replied? && !Failed(reply) ==>
                alert == None && attachments == Filter(old(attachments), Other(attachmentId))
    {
      if !confirmed {
        return false, None;
      }
      called, alert := true, None;
      if reply.Threw? {
        return;
      }
      if Failed(reply) {
        alert := Some(reply.error.value);
      } else {
        attachments := Filter(attachments, Other(attachmentId));
      }
    }
  }
}
