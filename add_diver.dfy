/**
  The add-diver form of the web client
  (computer-app/diver-distress-client/src/components/AddDiver.jsx): the
  letters-only diver-ID rule, the form state it guards, and the submit step
  that refuses an invalid ID before anything is posted.
 */
module AddDiverForm {
  import opened Text

  /** `validateId`: the regular expression `^[a-zA-Z]+$`. */
  predicate ValidateId(id: string) {
    |id| > 0 && forall k | 0 <= k < |id| :: IsAsciiLetter(id[k])
  }

  const ID_ERROR := "ID must contain only letters"

  type Form = map<string, string>

  /** The form's initial state: every field empty except `status`. */
  const INITIAL_FORM: Form := map[
    "id" := "", "name" := "", "age" := "", "weight" := "", "contact_info" := "",
    "bpm" := "", "entry_point" := "", "current_depth" := "", "status" := "normal"]

  /** A diver posted to the server: the form's fields and the group from the route. */
  datatype Submission = Submission(form: Form, groupId: string)

  /** The component's state: `formData`, `error`, and every submission posted. */
  datatype FormState = FormState(formData: Form, error: string, posted: seq<Submission>)

  const INITIAL := FormState(INITIAL_FORM, "", [])

  /** `handleChange` for the input named `name` taking `value`. */
  function Change(s: FormState, name: string, value: string): FormState {
    if name == "id" then
      if value == "" || ValidateId(value) then s.(formData := s.formData[name := value], error := "")
      else s.(error := ID_ERROR)
    else s.(formData := s.formData[name := value])
  }

  /** `handleSubmit`: an invalid ID sets the error and posts nothing. The form always has an `id` field. */
  function Submit(s: FormState, groupId: string): FormState
    requires "id" in s.formData
  {
    if !ValidateId(s.formData["id"]) then s.(error := ID_ERROR)
    else s.(posted := s.posted + [Submission(s.formData, groupId)])
  }

  /** The form's invariant: its ID is empty or valid, and every posted diver has a valid ID. */
  ghost predicate FormInv(s: FormState) {
    && "id" in s.formData
    && (s.formData["id"] == "" || ValidateId(s.formData["id"]))
    && forall k | 0 <= k < |s.posted| :: "id" in s.posted[k].form && ValidateId(s.posted[k].form["id"])
  }

  /** The form starts with status "normal", every other field empty, and no error. */
  lemma InitialState()
    ensures INITIAL.formData.Keys == {"id", "name", "age", "weight", "contact_info", "bpm", "entry_point", "current_depth", "status"}
    ensures forall k | k in INITIAL.formData && k != "status" :: INITIAL.formData[k] == ""
    ensures INITIAL.formData["status"] == "normal" && INITIAL.error == ""
    ensures FormInv(INITIAL)
  {
  }

  /** A valid ID is a non-empty run of ASCII letters: no digit, comma, hyphen or blank in it. */
  lemma ValidIdHasNoDigitOrSeparator(id: string)
    requires ValidateId(id)
    ensures id != [] && AllNonDigits(id) && ',' !in id && '-' !in id && !IsBlank(id)
  {
    assert !IsWhitespace(id[0]);
  }

  /** An empty or valid ID replaces the old one and clears the error; nothing else changes. */
  lemma ChangeIdAccepted(s: FormState, value: string)
    requires value == "" || ValidateId(value)
    ensures var r := Change(s, "id", value);
      && r.formData["id"] == value && r.error == "" && r.posted == s.posted
      && (forall k | k in s.formData && k != "id" :: k in r.formData && r.formData[k] == s.formData[k])
      && r.formData.Keys == s.formData.Keys + {"id"}
  {
  }

  /** An invalid ID leaves the form untouched and sets the error. */
  lemma ChangeIdRejected(s: FormState, value: string)
    requires value != "" && !ValidateId(value)
    ensures Change(s, "id", value) == s.(error := ID_ERROR)
  {
  }

  /** Any other field is set to the new value; the error and every other field stay. */
  lemma ChangeOtherField(s: FormState, name: string, value: string)
    requires name != "id"
    ensures var r := Change(s, name, value);
      && r.formData[name] == value && r.error == s.error && r.posted == s.posted
      && forall k | k in s.formData && k != name :: k in r.formData && r.formData[k] == s.formData[k]
  {
  }

  /** Submitting posts the form exactly when its ID is valid; otherwise it only sets the error. */
  lemma SubmitSpec(s: FormState, groupId: string)
    requires "id" in s.formData
    ensures var r := Submit(s, groupId);
      && r.formData == s.formData
      && (ValidateId(s.formData["id"]) <==> |r.posted| == |s.posted| + 1)
      && (|r.posted| == |s.posted| + 1 ==> r.posted == s.posted + [Submission(s.formData, groupId)] && r.error == s.error)
      && (|r.posted| != |s.posted| + 1 ==> r == s.(error := ID_ERROR))
  {
  }

  lemma ChangeKeepsInv(s: FormState, name: string, value: string)
    requires FormInv(s)
    ensures FormInv(Change(s, name, value))
  {
  }

  lemma SubmitKeepsInv(s: FormState, groupId: string)
    requires FormInv(s)
    ensures FormInv(Submit(s, groupId))
  {
    var r := Submit(s, groupId);
    if |r.posted| != |s.posted| {
      assert r.posted[|s.posted|].form == s.formData;
    }
  }

  /** The component: `formData` and `error` are replaced one field at a time through their setters. */
  class AddDiver {
    var formData: Form
    var error: string
    /** The payloads posted to the server, in order. */
    var posted: seq<Submission>

    function State(): FormState
      reads this
    {
      FormState(formData, error, posted)
    }

    constructor ()
      ensures State() == INITIAL
    {
      formData := INITIAL_FORM;
      error := "";
      posted := [];
    }

    method HandleChange(name: string, value: string)
      modifies this`formData, this`error
      ensures State() == Change(old(State()), name, value)
    {
      if name == "id" {
        if value == "" || ValidateId(value) {
          formData := formData[name := value];
          error := "";
        } else {
          error := ID_ERROR;
        }
      } else {
        formData := formData[name := value];
      }
    }

    method HandleSubmit(groupId: string)
      requires "id" in formData
      modifies this`error, this`posted
      ensures State() == Submit(old(State()), groupId)
    {
      if !ValidateId(formData["id"]) {
        error := ID_ERROR;
        return;
      }
      posted := posted + [Submission(formData, groupId)];
    }
  }
}
