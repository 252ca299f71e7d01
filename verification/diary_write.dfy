/** The diary writing screen's local state: the category list and the
    selected category across add and delete, the speech-to-text transcript
    appended to the content, the recording flag, and submit validation.
    Server and browser outcomes (the created category, whether a request
    rejected, the user's confirmation, microphone permission, the transcript)
    are passed in. */
module DiaryWrite {
  import opened Records
  import opened Seqs
  import Text

  /** How the category creation request ended: the JSON body, or an exception. */
  datatype AddOutcome = Created(category: Category) | AddFailed

  /** How the category deletion request ended: it completed (whatever the
      status), or it threw. */
  datatype DeleteOutcome = Completed | DeleteFailed

  /** How the speech-to-text request ended. */
  datatype SttOutcome = SttOk(text: Option<string>) | SttNotOk | SttFailed

  /** What a submit attempt does. */
  datatype SubmitStart = Refused | Sent(title: string, content: string, categoryId: Option<int>)

  /** The categories other than `id`, in order. */
  function WithoutCategory(cs: seq<Category>, id: int): seq<Category>
  {
    Filter((c: Category) => c.id != id, cs)
  }

  /** Deletion removes every category with that id and nothing else, keeping the
      order of the rest; an id not in the list leaves the list as it is. */
  lemma {:induction false} WithoutCategorySpec(cs: seq<Category>, id: int, c: Category)
    ensures c in WithoutCategory(cs, id) <==> c in cs && c.id != id
    ensures IsSubseq(WithoutCategory(cs, id), cs)
    ensures (forall i :: 0 <= i < |cs| ==> cs[i].id != id) ==> WithoutCategory(cs, id) == cs
  {
    var keep := (x: Category) => x.id != id;
    FilterMembership(keep, cs, c);
    FilterIsSubseq(keep, cs);
    if forall i :: 0 <= i < |cs| ==> cs[i].id != id {
      FilterKeepsAll(keep, cs);
    }
  }

  /** `prev ? prev + " " + text : text`. */
  function AppendTranscript(prev: string, text: string): (r: string)
    ensures prev == "" ==> r == text
    ensures prev != "" ==> |r| == |prev| + 1 + |text| && r[..|prev|] == prev && r[|prev|] == ' ' && r[|prev| + 1..] == text
  {
    if prev != "" then prev + " " + text else text
  }

  /** The submit check: a title and a content are both required. */
  predicate CanSubmit(title: string, content: string)
  {
    title != "" && content != ""
  }

  /** `selectedCategoryId || null`: no selection, and the id 0, send no category. */
  function PayloadCategory(selected: Option<int>): (r: Option<int>)
    ensures r.Some? <==> selected.Some? && selected.value != 0
    ensures r.Some? ==> r == selected
  {
    if selected.Some? && selected.value != 0 then selected else None
  }

  /** The select's `Number(value) || ""`: the placeholder (and an id of 0) means no selection. */
  function SelectionOf(value: int): (r: Option<int>)
    ensures r == None <==> value == 0
    ensures r.Some? ==> r.value == value
  {
    if value == 0 then None else Some(value)
  }

  /** The form's state. `hasRecorder` says whether a recorder has been created. */
  class DiaryWriteForm {
    var title: string
    var content: string
    var categories: seq<Category>
    var selectedCategoryId: Option<int>
    var newCategoryName: string
    var isRecording: bool
    var hasRecorder: bool
    var isSubmitting: bool

    /** Recording is only ever on with a recorder. */
    ghost predicate Valid()
      reads this
    {
      isRecording ==> hasRecorder
    }

    constructor ()
      ensures Valid()
      ensures title == "" && content == "" && categories == []
      ensures selectedCategoryId == None && newCategoryName == ""
      ensures !isRecording && !hasRecorder && !isSubmitting
    {
      title, content, categories := "", "", [];
      selectedCategoryId, newCategoryName := None, "";
      isRecording, hasRecorder, isSubmitting := false, false, false;
    }

    /** The categories response: an array replaces the list, anything else empties it;
        a failed request (`None`) leaves it as it was. */
    method LoadCategories(response: Option<Option<seq<Category>>>)
      requires Valid()
      modifies this
      ensures Valid()
      ensures response == None ==> categories == old(categories)
      ensures response.Some? && response.value.Some? ==> categories == response.value.value
      ensures response.Some? && response.value.None? ==> categories == []
      ensures selectedCategoryId == old(selectedCategoryId) && content == old(content) && title == old(title)
      ensures newCategoryName == old(newCategoryName) && isSubmitting == old(isSubmitting)
      ensures isRecording == old(isRecording) && hasRecorder == old(hasRecorder)
    {
      match response {
        case None =>
        case Some(data) =>
          categories := if data.Some? then data.value else [];
      }
    }

    method SelectCategory(value: int)
      requires Valid()
      modifies this
      ensures Valid()
      ensures selectedCategoryId == SelectionOf(value)
      ensures categories == old(categories) && content == old(content) && title == old(title)
      ensures newCategoryName == old(newCategoryName) && isSubmitting == old(isSubmitting)
      ensures isRecording == old(isRecording) && hasRecorder == old(hasRecorder)
    {
      selectedCategoryId := SelectionOf(value);
    }

    /** `handleAddCategory`: a name that trims to nothing changes nothing; a
        created category goes to the end of the list, the input is cleared and
        the new category selected; a failed request changes nothing. */
    method AddCategory(outcome: AddOutcome)
      requires Valid()
      modifies this
      ensures Valid()
      ensures Text.Trim(old(newCategoryName)) == "" || outcome.AddFailed? ==>
        categories == old(categories) && newCategoryName == old(newCategoryName)
        && selectedCategoryId == old(selectedCategoryId)
      ensures Text.Trim(old(newCategoryName)) != "" && outcome.Created? ==>
        categories == old(categories) + [outcome.category] && newCategoryName == ""
        && selectedCategoryId == Some(outcome.category.id)
      ensures content == old(content) && title == old(title) && isRecording == old(isRecording)
      ensures hasRecorder == old(hasRecorder) && isSubmitting == old(isSubmitting)
    {
      if Text.Trim(newCategoryName) == "" {
        return;
      }
      match outcome {
        case Created(c) =>
          categories := categories + [c];
          newCategoryName := "";
          selectedCategoryId := Some(c.id);
        case AddFailed =>
      }
    }

    /** `handleDeleteCategory`: without confirmation, or when the request
        throws, nothing changes; otherwise the category leaves the list and the
        selection is cleared if it was that category. */
    method DeleteCategory(id: int, confirmed: bool, outcome: DeleteOutcome)
      requires Valid()
      modifies this
      ensures Valid()
      ensures !confirmed || outcome.DeleteFailed? ==>
        categories == old(categories) && selectedCategoryId == old(selectedCategoryId)
      ensures confirmed && outcome.Completed? ==>
        categories == WithoutCategory(old(categories), id)
        && selectedCategoryId == (if old(selectedCategoryId) == Some(id) then None else old(selectedCategoryId))
      ensures content == old(content) && title == old(title) && newCategoryName == old(newCategoryName)
      ensures isRecording == old(isRecording) && hasRecorder == old(hasRecorder)
      ensures isSubmitting == old(isSubmitting)
    {
      if !confirmed {
        return;
      }
      if outcome.Completed? {
        categories := WithoutCategory(categories, id);
        if selectedCategoryId == Some(id) {
          selectedCategoryId := None;
        }
      }
    }

    /** `startRecording`: with microphone access a recorder is made and recording starts. */
    method StartRecording(granted: bool)
      requires Valid()
      modifies this
      ensures Valid()
      ensures granted ==> hasRecorder && isRecording
      ensures !granted ==> hasRecorder == old(hasRecorder) && isRecording == old(isRecording)
      ensures content == old(content) && categories == old(categories)
      ensures title == old(title) && selectedCategoryId == old(selectedCategoryId)
      ensures newCategoryName == old(newCategoryName) && isSubmitting == old(isSubmitting)
    {
      if granted {
        hasRecorder := true;
        isRecording := true;
      }
    }

    /** `stopRecording`: only with a recorder that is recording; says whether it stopped
        (a stop leads to the transcript request). */
    method StopRecording() returns (stopped: bool)
      requires Valid()
      modifies this
      ensures Valid()
      ensures stopped <==> old(hasRecorder) && old(isRecording)
      ensures !isRecording
      ensures hasRecorder == old(hasRecorder) && content == old(content)
      ensures title == old(title) && categories == old(categories)
      ensures selectedCategoryId == old(selectedCategoryId) && newCategoryName == old(newCategoryName)
      ensures isSubmitting == old(isSubmitting)
    {
      stopped := hasRecorder && isRecording;
      if stopped {
        isRecording := false;
      }
    }

    /** `sendAudioToSTT`: a non-empty transcript from an OK response is
        appended to the content; anything else leaves the content alone. */
    method ReceiveTranscript(outcome: SttOutcome)
      requires Valid()
      modifies this
      ensures Valid()
      ensures outcome.SttOk? && outcome.text.Some? && outcome.text.value != "" ==>
        content == AppendTranscript(old(content), outcome.text.value)
      ensures !(outcome.SttOk? && outcome.text.Some? && outcome.text.value != "") ==>
        content == old(content)
      ensures title == old(title) && categories == old(categories) && isRecording == old(isRecording)
      ensures selectedCategoryId == old(selectedCategoryId) && newCategoryName == old(newCategoryName)
      ensures hasRecorder == old(hasRecorder) && isSubmitting == old(isSubmitting)
    {
      if outcome.SttOk? && outcome.text.Some? && outcome.text.value != "" {
        content := AppendTranscript(content, outcome.text.value);
      }
    }

    /** The first half of `handleSubmit`: refused without a request when the
        title or the content is empty, otherwise the request is sent. */
    method BeginSubmit() returns (start: SubmitStart)
      requires Valid()
      modifies this
      ensures Valid()
      ensures start.Refused? <==> !CanSubmit(title, content)
      ensures start.Refused? ==> isSubmitting == old(isSubmitting)
      ensures start.Sent? ==> (isSubmitting
        && start == Sent(title, content, PayloadCategory(selectedCategoryId)))
      ensures title == old(title) && content == old(content) && selectedCategoryId == old(selectedCategoryId)
      ensures categories == old(categories) && newCategoryName == old(newCategoryName)
      ensures isRecording == old(isRecording) && hasRecorder == old(hasRecorder)
    {
      if !CanSubmit(title, content) {
        return Refused;
      }
      isSubmitting := true;
      start := Sent(title, content, PayloadCategory(selectedCategoryId));
    }

    /** The second half: submitting ends; an OK response leaves the screen. */
    method FinishSubmit(ok: bool) returns (navigateHome: bool)
      requires Valid()
      modifies this
      ensures Valid()
      ensures !isSubmitting
      ensures navigateHome == ok
      ensures title == old(title) && content == old(content)
      ensures categories == old(categories) && selectedCategoryId == old(selectedCategoryId)
      ensures newCategoryName == old(newCategoryName)
      ensures isRecording == old(isRecording) && hasRecorder == old(hasRecorder)
    {
      isSubmitting := false;
      navigateHome := ok;
    }
  }
}
