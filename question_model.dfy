/** The Question schema: a required fan name, a required text of at most 500 characters, an optional answer. */
module QuestionModel {
  import opened Documents
  import opened Text

  /** The schema's maxlength on the text, counted as JavaScript counts length. */
  const MaxTextLength: nat := 500

  /** An absent answer stands for a missing field and for null alike. */
  datatype Question = Question(fanName: string, text: string, answer: Option<string>, createdAt: Time)

  predicate Valid(q: Question) {
    q.fanName != "" && q.text != "" && Utf16Length(q.text) <= MaxTextLength
  }

  /** A new, unanswered question; it fails validation when a field is empty or the text is too long. */
  function NewQuestion(fanName: string, text: string, now: Time): (r: Option<Question>)
    ensures r.Some? <==> fanName != "" && text != "" && Utf16Length(text) <= MaxTextLength
    ensures r.Some? ==> Valid(r.value)
    ensures r.Some? ==> r.value.fanName == fanName && r.value.text == text
    ensures r.Some? ==> r.value.answer.None? && r.value.createdAt == now
  {
    var q := Question(fanName, text, None, now);
    if Valid(q) then Some(q) else None
  }

  /** A text made only of characters outside the basic plane (emoji, say) counts two units per
      character, so the schema accepts at most 250 of them. */
  lemma AstralTextHalfLimit(fanName: string, text: string, now: Time)
    requires fanName != "" && text != ""
    requires forall i :: 0 <= i < |text| ==> text[i] as int > 0xFFFF
    ensures NewQuestion(fanName, text, now).Some? <==> |text| <= MaxTextLength / 2
  {
  }
}
