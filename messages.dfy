/** Optional values, for a result that may be absent. */
module Wrappers {
  datatype Option<T> = None | Some(value: T)
}

/** The fixed messages the component shows in its output area, and the
    message it composes when the text-generation service fails. */
module Messages {
  import opened Wrappers
  import opened Text

  /** "Please fill in a topic or the content/details." */
  const MissingFieldsMessage: string := "ကျေးဇူးပြု၍ ခေါင်းစဉ် သို့မဟုတ် အကြောင်းအရာ/အသေးစိတ် ဖြည့်သွင်းပါ။"

  /** "Gemini API Key not found. Please enter an API Key." */
  const MissingKeyMessage: string := "Gemini API Key မတွေ့ပါ။ ကျေးဇူးပြု၍ API Key ထည့်သွင်းပါ။"

  /** "Please enter your Gemini API Key." */
  const EnterKeyMessage: string := "ကျေးဇူးပြု၍ သင်၏ Gemini API Key ကို ထည့်သွင်းပါ။"

  /** "No answer came back from Gemini." */
  const NoResultMessage: string := "Gemini မှ အဖြေတစ်ခုမှ ပြန်လည်မရရှိခဲ့ပါ။"

  /** "An error occurred while creating the content." */
  const FailurePrefix: string := "Content ဖန်တီးရာတွင် အမှားအယွင်း ဖြစ်ပေါ်ခဲ့ပါသည်။"

  /** The text by which the service reports a rejected credential. */
  const InvalidKeyMarker: string := "API key not valid"

  /** A blank line, then "The API Key you entered is not valid. Please check it again." */
  const InvalidKeyHint: string :=
    "\n\n" + "သင်ထည့်သွင်းထားသော API Key သည် မမှန်ကန်ပါ။" + " ကျေးဇူးပြု၍ ပြန်လည်စစ်ဆေးပါ။"

  /** A blank line, then "Details: ", followed by the failure's own message. */
  const DetailLead: string := "\n\nအသေးစိတ်အချက်အလက်: "

  /** The message shown for a failure whose message is `m`: the generic
      prefix, then the credential hint when `m` mentions an invalid key,
      and the raw failure detail otherwise. */
  ghost function ErrorMessage(m: string): string {
    FailurePrefix + (if Occurs(m, InvalidKeyMarker) then InvalidKeyHint else DetailLead + m)
  }

  /** Composes the failure message the way the `catch` block of
      `generateContent` does, starting from the prefix and appending to it. */
  method ComposeErrorMessage(m: string) returns (msg: string)
    ensures msg == ErrorMessage(m)
  {
    IncludesIffOccurs(m, InvalidKeyMarker);
    msg := FailurePrefix;
    if Includes(m, InvalidKeyMarker) {
      msg := msg + InvalidKeyHint;
    } else {
      msg := msg + (DetailLead + m);
    }
  }

  /** Reads the raw failure detail back out of a composed message, if the
      message carries one. */
  function FailureDetail(msg: string): Option<string> {
    var head := FailurePrefix + DetailLead;
    if |head| <= |msg| && msg[..|head|] == head then Some(msg[|head|..]) else None
  }

  /** Every composed message starts with the generic prefix. */
  lemma ErrorMessageStartsWithPrefix(m: string)
    ensures |ErrorMessage(m)| > |FailurePrefix|
    ensures ErrorMessage(m)[..|FailurePrefix|] == FailurePrefix
  {
  }

  /** A failure that does not mention an invalid key shows its own message,
      unchanged, after the prefix: reading it back gives `m`. */
  lemma DetailRoundTrip(m: string)
    requires !Occurs(m, InvalidKeyMarker)
    ensures FailureDetail(ErrorMessage(m)) == Some(m)
  {
    var head := FailurePrefix + DetailLead;
    assert ErrorMessage(m) == head + m;
    assert (head + m)[..|head|] == head;
    assert (head + m)[|head|..] == m;
  }

  /** Two failures without the invalid-key marker show different messages
      whenever their own messages differ. */
  lemma DetailMessagesDistinct(m1: string, m2: string)
    requires !Occurs(m1, InvalidKeyMarker) && !Occurs(m2, InvalidKeyMarker)
    requires m1 != m2
    ensures ErrorMessage(m1) != ErrorMessage(m2)
  {
    DetailRoundTrip(m1);
    DetailRoundTrip(m2);
  }

  /** The credential hint and the detail lead differ right after their
      blank line, so a message carrying the hint carries no raw detail. */
  lemma HintCarriesNoDetail()
    ensures FailureDetail(FailurePrefix + InvalidKeyHint) == None
  {
    var msg := FailurePrefix + InvalidKeyHint;
    var head := FailurePrefix + DetailLead;
    var k := |FailurePrefix| + 2;
    assert InvalidKeyHint[2] == 'သ';
    assert DetailLead[2] == 'အ';
    assert msg[k] == InvalidKeyHint[2];
    assert head[k] == DetailLead[2];
  }

  /** For a failure that mentions an invalid key the message is the prefix
      and the credential hint, holds both, and carries no raw detail. */
  lemma InvalidKeyMessage(m: string)
    requires Occurs(m, InvalidKeyMarker)
    ensures ErrorMessage(m) == FailurePrefix + InvalidKeyHint
    ensures Occurs(ErrorMessage(m), FailurePrefix) && Occurs(ErrorMessage(m), InvalidKeyHint)
    ensures FailureDetail(ErrorMessage(m)) == None
  {
    OccursAtEnd(FailurePrefix, InvalidKeyHint);
    OccursAtStart(FailurePrefix, InvalidKeyHint);
    HintCarriesNoDetail();
  }
}
