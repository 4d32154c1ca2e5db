/** The prompt that `generateContent` sends to the text-generation service:
    a fixed preamble, one clause per filled-in form field in a fixed order,
    and a fixed closing instruction. */
module Prompt {
  import opened Text

  /** The four form fields as the component holds them (untrimmed). */
  datatype Form = Form(topic: string, tone: string, details: string, length: string)

  /** The fields that can contribute a clause. */
  datatype Field = TopicField | DetailsField | ToneField | LengthField

  /** "Create a piece of content in Burmese based on the following", then a blank line. */
  const Preamble: string := "မြန်မာဘာသာဖြင့် အောက်ပါအချက်အလက်များကို အခြေခံ၍ အကြောင်းအရာတစ်ခု ဖန်တီးပေးပါ။\n\n"

  /** "Please write a complete, informative piece of content." */
  const Closing: string := "ကျေးဇူးပြု၍ အချက်အလက်ပြည့်စုံသော အကြောင်းအရာတစ်ခုကို ရေးသားပေးပါ။"

  /** The order in which clauses are added. */
  const FieldOrder: seq<Field> := [TopicField, DetailsField, ToneField, LengthField]

  /** The position of a field in `FieldOrder`. */
  function Rank(f: Field): nat {
    match f
    case TopicField => 0
    case DetailsField => 1
    case ToneField => 2
    case LengthField => 3
  }

  /** The value a field contributes: topic and details trimmed, tone and
      length (chosen from a drop-down) as they are. */
  function Value(f: Field, form: Form): string {
    match f
    case TopicField => Trim(form.topic)
    case DetailsField => Trim(form.details)
    case ToneField => form.tone
    case LengthField => form.length
  }

  /** The text before the quoted value: "Topic: ", "Details/suggestions: ",
      "Tone: ", "Length: ". */
  function Label(f: Field): string {
    match f
    case TopicField => "ခေါင်းစဉ်: "
    case DetailsField => "အသေးစိတ်အကြောင်းအရာ/အကြံပြုချက်: "
    case ToneField => "ရေးသားဟန်: "
    case LengthField => "အရှည်: "
  }

  /** The text after the quoted value, up to and including the line break. */
  function Suffix(f: Field): string {
    match f
    case TopicField => "\n"
    case DetailsField => "\n"
    case ToneField => " ဟန်ဖြင့်\n"
    case LengthField => " အရေးအသား ဖြစ်ပါစေ။\n"
  }

  function Quote(v: string): string {
    "\"" + v + "\""
  }

  /** One line of the prompt: label, quoted value, suffix. */
  function Clause(f: Field, form: Form): string {
    Label(f) + Quote(Value(f, form)) + Suffix(f)
  }

  /** The singleton of `f` when its value is non-empty, and nothing otherwise. */
  function IfFilled(f: Field, form: Form): seq<Field> {
    if Value(f, form) != "" then [f] else []
  }

  /** The fields of `fs`, in their order, whose value is non-empty. */
  function Selected(fs: seq<Field>, form: Form): seq<Field> {
    if fs == [] then []
    else
      Selected(fs[..|fs| - 1], form) + IfFilled(fs[|fs| - 1], form)
  }

  /** The fields that contribute a clause to the prompt for `form`. */
  function Included(form: Form): seq<Field> {
    Selected(FieldOrder, form)
  }

  /** `acc` followed by the clauses of `fs`, one after the other. */
  function Appended(acc: string, fs: seq<Field>, form: Form): string {
    if fs == [] then acc
    else Appended(acc, fs[..|fs| - 1], form) + Clause(fs[|fs| - 1], form)
  }

  /** The prompt for `form`: the preamble, the clause of every included field,
      the closing. */
  function PromptText(form: Form): string {
    Appended(Preamble, Included(form), form) + Closing
  }

  /** Selecting from one more field adds that field when it is filled. */
  lemma SelectedSnoc(fs: seq<Field>, f: Field, form: Form)
    ensures Selected(fs + [f], form) == Selected(fs, form) + IfFilled(f, form)
  {
    assert (fs + [f])[..|fs|] == fs;
  }

  /** `Included` written out for the four fields of the order. */
  lemma IncludedUnrolled(form: Form)
    ensures Included(form)
         == IfFilled(TopicField, form) + IfFilled(DetailsField, form)
            + IfFilled(ToneField, form) + IfFilled(LengthField, form)
  {
    var (t, d, n, l) := (TopicField, DetailsField, ToneField, LengthField);
    assert FieldOrder == [] + [t] + [d] + [n] + [l];
    SelectedSnoc([], t, form);
    SelectedSnoc([t], d, form);
    SelectedSnoc([t, d], n, form);
    SelectedSnoc([t, d, n], l, form);
    assert [] + [t] == [t] && [t] + [d] == [t, d] && [t, d] + [n] == [t, d, n];
    assert [t, d, n] + [l] == FieldOrder;
  }

  /** Appending one more field appends its clause. */
  lemma AppendedSnoc(acc: string, fs: seq<Field>, form: Form, f: Field)
    ensures Appended(acc, fs + [f], form) == Appended(acc, fs, form) + Clause(f, form)
  {
  }

  /** Builds the prompt the way `generateContent` does, by appending to a
      local string one clause at a time. */
  method BuildPrompt(topic: string, tone: string, details: string, length: string)
    returns (prompt: string)
    ensures prompt == PromptText(Form(topic, tone, details, length))
  {
    ghost var form := Form(topic, tone, details, length);
    ghost var taken: seq<Field> := [];
    prompt := Preamble;
    assert prompt == Appended(Preamble, taken, form);
    var t := Trim(topic);
    if t != "" {
      prompt := prompt + ("ခေါင်းစဉ်: " + Quote(t) + "\n");
      AppendedSnoc(Preamble, taken, form, TopicField);
      taken := taken + [TopicField];
    }
    assert taken == IfFilled(TopicField, form);
    assert prompt == Appended(Preamble, taken, form);
    var d := Trim(details);
    if d != "" {
      prompt := prompt + ("အသေးစိတ်အကြောင်းအရာ/အကြံပြုချက်: " + Quote(d) + "\n");
      AppendedSnoc(Preamble, taken, form, DetailsField);
      taken := taken + [DetailsField];
    }
    assert taken == IfFilled(TopicField, form) + IfFilled(DetailsField, form);
    assert prompt == Appended(Preamble, taken, form);
    if tone != "" {
      prompt := prompt + ("ရေးသားဟန်: " + Quote(tone) + " ဟန်ဖြင့်\n");
      AppendedSnoc(Preamble, taken, form, ToneField);
      taken := taken + [ToneField];
    }
    assert taken == IfFilled(TopicField, form) + IfFilled(DetailsField, form)
                    + IfFilled(ToneField, form);
    assert prompt == Appended(Preamble, taken, form);
    if length != "" {
      prompt := prompt + ("အရှည်: " + Quote(length) + " အရေးအသား ဖြစ်ပါစေ။\n");
      AppendedSnoc(Preamble, taken, form, LengthField);
      taken := taken + [LengthField];
    }
    assert prompt == Appended(Preamble, taken, form);
    IncludedUnrolled(form);
    assert taken == Included(form);
    prompt := prompt + Closing;
  }

  /** A field of `fs` is selected exactly when its value is non-empty. */
  lemma {:induction false} SelectedIff(fs: seq<Field>, form: Form, f: Field)
    ensures f in Selected(fs, form) <==> f in fs && Value(f, form) != ""
  {
    if fs != [] {
      SelectedIff(fs[..|fs| - 1], form, f);
      assert fs == fs[..|fs| - 1] + [fs[|fs| - 1]];
    }
  }

  /** There is a topic clause iff the trimmed topic is non-empty, a details
      clause iff the trimmed details are, and a tone or length clause iff
      that field is non-empty before any trimming. */
  lemma ClauseIffFilled(form: Form)
    ensures TopicField in Included(form) <==> Trim(form.topic) != ""
    ensures DetailsField in Included(form) <==> Trim(form.details) != ""
    ensures ToneField in Included(form) <==> form.tone != ""
    ensures LengthField in Included(form) <==> form.length != ""
  {
    SelectedIff(FieldOrder, form, TopicField);
    SelectedIff(FieldOrder, form, DetailsField);
    SelectedIff(FieldOrder, form, ToneField);
    SelectedIff(FieldOrder, form, LengthField);
  }

  /** The fields of `fs` are in strictly increasing order of rank. */
  predicate InOrder(fs: seq<Field>) {
    forall i, j :: 0 <= i < j < |fs| ==> Rank(fs[i]) < Rank(fs[j])
  }

  /** Selecting keeps the order of the fields and takes nothing new. */
  lemma {:induction false} SelectedInOrder(fs: seq<Field>, form: Form)
    requires InOrder(fs)
    ensures InOrder(Selected(fs, form))
    ensures forall f :: f in Selected(fs, form) ==> f in fs
  {
    if fs != [] {
      var init, last := fs[..|fs| - 1], fs[|fs| - 1];
      SelectedInOrder(init, form);
      var s := Selected(init, form);
      forall i | 0 <= i < |s| ensures Rank(s[i]) < Rank(last) {
        assert s[i] in init;
        var k :| 0 <= k < |init| && init[k] == s[i];
        assert fs[k] == s[i];
      }
    }
  }

  /** Clauses appear in the order topic, details, tone, length, each at most once. */
  lemma ClausesInFieldOrder(form: Form)
    ensures InOrder(Included(form))
  {
    SelectedInOrder(FieldOrder, form);
  }

  /** The clause of every field in `fs` occurs in what is appended. */
  lemma {:induction false} ClauseAppended(acc: string, fs: seq<Field>, form: Form, f: Field)
    requires f in fs
    ensures Occurs(Appended(acc, fs, form), Clause(f, form))
  {
    var init, last := fs[..|fs| - 1], fs[|fs| - 1];
    if f == last {
      OccursAtEnd(Appended(acc, init, form), Clause(f, form));
    } else {
      assert fs == init + [last];
      ClauseAppended(acc, init, form, f);
      OccursBefore(Appended(acc, init, form), Clause(last, form), Clause(f, form));
    }
  }

  /** Appending clauses keeps what was there as a prefix. */
  lemma {:induction false} AppendedExtends(acc: string, fs: seq<Field>, form: Form)
    ensures |Appended(acc, fs, form)| >= |acc|
    ensures Appended(acc, fs, form)[..|acc|] == acc
  {
    if fs != [] {
      var init := fs[..|fs| - 1];
      AppendedExtends(acc, init, form);
      var before := Appended(acc, init, form);
      assert (before + Clause(fs[|fs| - 1], form))[..|acc|] == before[..|acc|];
    }
  }

  /** Every included field's clause, holding its (trimmed) value in quotes,
      is a substring of the prompt. */
  lemma ClauseInPrompt(form: Form, f: Field)
    requires f in Included(form)
    ensures Occurs(PromptText(form), Label(f) + Quote(Value(f, form)) + Suffix(f))
  {
    ClauseAppended(Preamble, Included(form), form, f);
    OccursBefore(Appended(Preamble, Included(form), form), Closing, Clause(f, form));
  }

  /** The prompt always starts with the preamble and ends with the closing. */
  lemma PromptFramed(form: Form)
    ensures |PromptText(form)| >= |Preamble| + |Closing|
    ensures PromptText(form)[..|Preamble|] == Preamble
    ensures PromptText(form)[|PromptText(form)| - |Closing|..] == Closing
  {
    var body := Appended(Preamble, Included(form), form);
    AppendedExtends(Preamble, Included(form), form);
    assert (body + Closing)[..|Preamble|] == body[..|Preamble|];
  }

  /** Two forms whose fields have the same values select the same fields. */
  lemma {:induction false} SameValuesSameSelection(fs: seq<Field>, form: Form, other: Form)
    requires forall f :: Value(f, form) == Value(f, other)
    ensures Selected(fs, form) == Selected(fs, other)
  {
    if fs != [] {
      SameValuesSameSelection(fs[..|fs| - 1], form, other);
    }
  }

  /** Two forms whose fields have the same values give the same clauses. */
  lemma {:induction false} SameValuesSameClauses(acc: string, fs: seq<Field>, form: Form, other: Form)
    requires forall f :: Value(f, form) == Value(f, other)
    ensures Appended(acc, fs, form) == Appended(acc, fs, other)
  {
    if fs != [] {
      SameValuesSameClauses(acc, fs[..|fs| - 1], form, other);
    }
  }

  /** The prompt depends on the form only through the field values. */
  lemma PromptDependsOnlyOnValues(form: Form, other: Form)
    requires forall f :: Value(f, form) == Value(f, other)
    ensures PromptText(form) == PromptText(other)
  {
    SameValuesSameSelection(FieldOrder, form, other);
    SameValuesSameClauses(Preamble, Included(form), form, other);
  }

  /** Appending a field only if it is filled appends its clause or nothing. */
  lemma AppendedIfFilled(acc: string, fs: seq<Field>, form: Form, f: Field)
    ensures Appended(acc, fs + IfFilled(f, form), form)
         == Appended(acc, fs, form) + (if Value(f, form) != "" then Clause(f, form) else "")
  {
    if Value(f, form) != "" {
      AppendedSnoc(acc, fs, form, f);
    } else {
      assert fs + IfFilled(f, form) == fs;
    }
  }

  /** The prompt written out: the preamble, then the clause of each field in
      the order topic, details, tone, length, or nothing at all for a field
      whose value is empty, then the closing. */
  lemma PromptClosedForm(form: Form)
    ensures PromptText(form)
         == Preamble
            + (if Trim(form.topic) != "" then Clause(TopicField, form) else "")
            + (if Trim(form.details) != "" then Clause(DetailsField, form) else "")
            + (if form.tone != "" then Clause(ToneField, form) else "")
            + (if form.length != "" then Clause(LengthField, form) else "")
            + Closing
  {
    var (t, d, n, l) := (TopicField, DetailsField, ToneField, LengthField);
    var s1 := IfFilled(t, form);
    var s2 := s1 + IfFilled(d, form);
    var s3 := s2 + IfFilled(n, form);
    IncludedUnrolled(form);
    assert Included(form) == s3 + IfFilled(l, form);
    AppendedIfFilled(Preamble, [], form, t);
    assert [] + s1 == s1;
    AppendedIfFilled(Preamble, s1, form, d);
    AppendedIfFilled(Preamble, s2, form, n);
    AppendedIfFilled(Preamble, s3, form, l);
  }

  /** A topic or details made only of white space gives the prompt of an
      empty one. */
  lemma BlankFieldsLeaveNoTrace(form: Form)
    requires AllSpace(form.topic) && AllSpace(form.details)
    ensures PromptText(form) == PromptText(form.(topic := "", details := ""))
  {
    var cleared := form.(topic := "", details := "");
    TrimEmptyIffBlank(form.topic);
    TrimEmptyIffBlank(form.details);
    TrimEmptyIffBlank("");
    forall f ensures Value(f, form) == Value(f, cleared) {
      match f
      case TopicField =>
      case DetailsField =>
      case ToneField =>
      case LengthField =>
    }
    PromptDependsOnlyOnValues(form, cleared);
  }

  /** A form that passes validation (a topic or details that are not blank)
      gives a prompt with at least one clause, and its first clause is the
      topic's or the details'. */
  lemma ValidatedFormHasLeadingClause(form: Form)
    requires Trim(form.topic) != "" || Trim(form.details) != ""
    ensures |Included(form)| > 0
    ensures Included(form)[0] == TopicField || Included(form)[0] == DetailsField
  {
    IncludedUnrolled(form);
  }

  /** With a topic and nothing else, the prompt is exactly the preamble, the
      topic clause and the closing, with no other label and no empty line. */
  lemma TopicOnlyPrompt(form: Form)
    requires Trim(form.topic) != "" && Trim(form.details) == ""
    requires form.tone == "" && form.length == ""
    ensures PromptText(form) == Preamble + ("ခေါင်းစဉ်: " + Quote(Trim(form.topic)) + "\n") + Closing
  {
    IncludedUnrolled(form);
    assert Included(form) == [] + [TopicField];
    AppendedSnoc(Preamble, [], form, TopicField);
  }
}
