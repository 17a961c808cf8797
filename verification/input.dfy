/** The question input: the text field, the submit gate, and the disabled
    states of the field and the button. */
module Input {
  import opened Wrappers
  import opened Text

  /** A form submission's result: the field's new text and the question
      handed to the session, if any. */
  datatype Submission = Submission(field: string, sent: Option<string>)

  /** `handleSubmit`: a field with some non-space text is trimmed and sent,
      and the field is cleared; otherwise, or while loading, nothing
      happens. */
  function HandleSubmit(field: string, loading: bool): (r: Submission)
    ensures r.sent.Some? <==> !AllSpace(field) && !loading
    ensures r.sent.Some? ==> r.sent.value == Trim(field) && r.field == ""
    ensures r.sent.None? ==> r.field == field
  {
    TrimEmptyIffAllSpace(field);
    if Trim(field) != "" && !loading then Submission("", Some(Trim(field)))
    else Submission(field, None)
  }

  /** The field is disabled while loading. */
  predicate InputDisabled(loading: bool): (disabled: bool)
    ensures disabled ==> forall field :: HandleSubmit(field, loading) == Submission(field, None)
  {
    loading
  }

  /** The button is disabled while loading or while the trimmed field is
      empty. */
  predicate SubmitDisabled(field: string, loading: bool): (disabled: bool)
    ensures disabled <==> HandleSubmit(field, loading).sent.None?
  {
    TrimEmptyIffAllSpace(field);
    Trim(field) == "" || loading
  }

  /** A sent question is non-empty, has no surrounding white space, and is
      left unchanged by trimming it again. */
  lemma SentQuestionIsTight(field: string, loading: bool)
    requires HandleSubmit(field, loading).sent.Some?
    ensures var q := HandleSubmit(field, loading).sent.value;
            q != "" && Tight(q) && Trim(q) == q
  {
    TrimEmptyIffAllSpace(field);
    TrimIdempotent(field);
  }
}
