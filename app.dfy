/** The `App` component: its state, the session store it shares with the
    browser tab, and the event handlers that update them one after another. */
module Component {
  import opened Wrappers
  import opened Text
  import opened Prompt
  import opened Messages

  /** The session-storage key under which the accepted credential is kept. */
  const StorageKey: string := "geminiApiKey"

  /** The model every request names. */
  const ModelName: string := "gemini-pro"

  /** What the text-generation service gives back for one request: the text
      of its response, or a failure with a human-readable message. */
  datatype Outcome = Success(text: string) | Failure(message: string)

  /** The request the component hands to the service. */
  datatype Request = Request(prompt: string, apiKey: string, model: string)

  /** The output area: its text, whether it shows an error, whether it is hidden. */
  datatype OutputArea = OutputArea(text: string, isError: bool, hidden: bool)

  /** The credential state: the key typed into the input box, the accepted
      key, and the tab's session store. */
  datatype Credentials = Credentials(typed: string, accepted: string, session: map<string, string>)

  /** `sessionStorage.getItem('geminiApiKey')`, with a missing entry read as
      the empty string (both are falsy to the component). */
  function StoredKey(session: map<string, string>): string {
    if StorageKey in session then session[StorageKey] else ""
  }

  class App {
    var geminiApiKey: string
    var globalApiKey: string
    var topic: string
    var tone: string
    var details: string
    var length: string
    var generatedContentText: string
    var isLoading: bool
    var isOutputError: bool
    var outputHidden: bool
    var session: map<string, string>

    /** The accepted credential is always the one in the session store, so
        the store alone decides which screen is shown. */
    ghost predicate Valid()
      reads this
    {
      globalApiKey == StoredKey(session)
    }

    /** `isApiKeyScreen`: the key-entry screen shows exactly when no
        credential is accepted; the input screen always has one. */
    predicate IsApiKeyScreen()
      reads this
      ensures !IsApiKeyScreen() ==> |globalApiKey| > 0
      ensures Valid() ==> (IsApiKeyScreen() <==> StoredKey(session) == "")
    {
      globalApiKey == ""
    }

    /** Whether the output area is on screen: as rendered, the output
        container sits inside the input screen's branch only. */
    predicate OutputOnScreen()
      reads this
      ensures OutputOnScreen() ==> |globalApiKey| > 0 && !outputHidden
      ensures Valid() ==> (OutputOnScreen() <==> StoredKey(session) != "" && !outputHidden)
    {
      !IsApiKeyScreen() && !outputHidden
    }

    /** Whether the output area would be on screen with the output container
        rendered below whichever screen is showing. */
    predicate OutputOnScreenCorrected()
      reads this
      ensures OutputOnScreen() ==> OutputOnScreenCorrected()
      ensures !IsApiKeyScreen() ==> (OutputOnScreenCorrected() <==> OutputOnScreen())
    {
      !outputHidden
    }

    function Fields(): Form
      reads this
    {
      Form(topic, tone, details, length)
    }

    function Output(): OutputArea
      reads this
    {
      OutputArea(generatedContentText, isOutputError, outputHidden)
    }

    function Keys(): Credentials
      reads this
    {
      Credentials(geminiApiKey, globalApiKey, session)
    }

    /** The component's first render followed by its mount effect: every
        field at its initial value, then a non-empty stored key, if any,
        copied into both key fields. */
    constructor Mount(stored: map<string, string>)
      ensures Valid()
      ensures session == stored
      ensures StoredKey(stored) != "" ==> geminiApiKey == globalApiKey == stored[StorageKey]
      ensures StoredKey(stored) == "" ==> geminiApiKey == globalApiKey == ""
      ensures IsApiKeyScreen() <==> StoredKey(stored) == ""
      ensures Fields() == Form("", "", "", "")
      ensures Output() == OutputArea("", false, true) && !isLoading
    {
      geminiApiKey := "";
      globalApiKey := "";
      topic, tone, details, length := "", "", "", "";
      generatedContentText := "";
      isLoading := false;
      isOutputError := false;
      outputHidden := true;
      session := stored;
      new;
      var storedApiKey := StoredKey(session);
      if storedApiKey != "" {
        geminiApiKey := storedApiKey;
        globalApiKey := storedApiKey;
      }
    }

    /** Typing into the API key box. */
    method TypeApiKey(k: string)
      requires Valid()
      modifies this
      ensures Valid()
      ensures Keys() == old(Keys()).(typed := k)
      ensures Fields() == old(Fields()) && Output() == old(Output()) && isLoading == old(isLoading)
    {
      geminiApiKey := k;
    }

    /** Typing into a text field or choosing from a drop-down of the form. */
    method EditField(f: Field, v: string)
      requires Valid()
      modifies this
      ensures Valid()
      ensures f == TopicField ==> Fields() == old(Fields()).(topic := v)
      ensures f == DetailsField ==> Fields() == old(Fields()).(details := v)
      ensures f == ToneField ==> Fields() == old(Fields()).(tone := v)
      ensures f == LengthField ==> Fields() == old(Fields()).(length := v)
      ensures Keys() == old(Keys()) && Output() == old(Output()) && isLoading == old(isLoading)
    {
      match f
      case TopicField => topic := v;
      case DetailsField => details := v;
      case ToneField => tone := v;
      case LengthField => length := v;
    }

    /** `displayOutput`: sets the output text and the error flag together and
        makes the output visible. */
    method DisplayOutput(text: string, isError: bool)
      requires Valid()
      modifies this
      ensures Valid()
      ensures Output() == OutputArea(text, isError, false)
      ensures Keys() == old(Keys()) && Fields() == old(Fields()) && isLoading == old(isLoading)
    {
      generatedContentText := text;
      isOutputError := isError;
      outputHidden := false;
    }

    /** `saveApiKey`: a typed key that is not blank is accepted and stored in
        trimmed form, which leaves the key-entry screen; a blank one is
        refused with an error in the output area. */
    method SaveApiKey()
      requires Valid()
      modifies this
      ensures Valid()
      ensures Trim(old(geminiApiKey)) != "" ==>
        && Keys() == Credentials(old(geminiApiKey), Trim(old(geminiApiKey)),
                                 old(session)[StorageKey := Trim(old(geminiApiKey))])
        && !IsApiKeyScreen()
        && Output() == old(Output())
      ensures Trim(old(geminiApiKey)) == "" ==>
        && Keys() == old(Keys())
        && Output() == OutputArea(EnterKeyMessage, true, false)
      ensures Fields() == old(Fields()) && isLoading == old(isLoading)
    {
      var key := Trim(geminiApiKey);
      if key != "" {
        globalApiKey := key;
        session := session[StorageKey := key];
      } else {
        DisplayOutput(EnterKeyMessage, true);
      }
    }

    /** `saveApiKey` corrected: a blank key's error is shown on the key-entry
        screen itself, and accepting a key hides and clears the output so
        that no earlier error is carried over to the input screen. */
    method SaveApiKeyCorrected()
      requires Valid()
      modifies this
      ensures Valid()
      ensures Trim(old(geminiApiKey)) != "" ==>
        && Keys() == Credentials(old(geminiApiKey), Trim(old(geminiApiKey)),
                                 old(session)[StorageKey := Trim(old(geminiApiKey))])
        && !IsApiKeyScreen()
        && Output() == OutputArea("", old(isOutputError), true)
        && !OutputOnScreenCorrected()
      ensures Trim(old(geminiApiKey)) == "" ==>
        && Keys() == old(Keys())
        && Output() == OutputArea(EnterKeyMessage, true, false)
        && OutputOnScreenCorrected()
      ensures Fields() == old(Fields()) && isLoading == old(isLoading)
    {
      var key := Trim(geminiApiKey);
      if key != "" {
        globalApiKey := key;
        session := session[StorageKey := key];
        outputHidden := true;
        generatedContentText := "";
      } else {
        DisplayOutput(EnterKeyMessage, true);
      }
    }

    /** `goBackToApiKeyScreen`: forgets the credential everywhere and hides
        and clears the output; the form and the error flag stay as they were. */
    method GoBackToApiKeyScreen()
      requires Valid()
      modifies this
      ensures Valid()
      ensures Keys() == Credentials("", "", old(session) - {StorageKey})
      ensures IsApiKeyScreen()
      ensures Output() == OutputArea("", old(isOutputError), true)
      ensures Fields() == old(Fields()) && isLoading == old(isLoading)
    {
      session := session - {StorageKey};
      globalApiKey := "";
      geminiApiKey := "";
      outputHidden := true;
      generatedContentText := "";
    }

    /** The synchronous part of `generateContent`, up to the service call.
        Validation of the form comes first, then the check for a credential;
        either failure shows its message as an error and sends nothing.
        Otherwise the component enters the loading state with the output
        hidden and cleared, and the request to send is returned. */
    method StartGenerate() returns (request: Option<Request>)
      requires Valid()
      modifies this
      ensures Valid()
      ensures Keys() == old(Keys()) && Fields() == old(Fields())
      ensures Trim(topic) == "" && Trim(details) == "" ==>
        && request == None
        && Output() == OutputArea(MissingFieldsMessage, true, false)
        && isLoading == old(isLoading)
      ensures (Trim(topic) != "" || Trim(details) != "") && globalApiKey == "" ==>
        && request == None
        && Output() == OutputArea(MissingKeyMessage, true, false)
        && isLoading == old(isLoading)
      ensures (Trim(topic) != "" || Trim(details) != "") && globalApiKey != "" ==>
        && request == Some(Request(PromptText(Fields()), globalApiKey, ModelName))
        && Output() == OutputArea("", false, true)
        && isLoading
    {
      if Trim(topic) == "" && Trim(details) == "" {
        DisplayOutput(MissingFieldsMessage, true);
        return None;
      }
      if globalApiKey == "" {
        DisplayOutput(MissingKeyMessage, true);
        return None;
      }
      var prompt := BuildPrompt(topic, tone, details, length);
      isLoading := true;
      outputHidden := true;
      generatedContentText := "";
      isOutputError := false;
      request := Some(Request(prompt, globalApiKey, ModelName));
    }

    /** The part of `generateContent` after the service has answered: the
        output becomes visible with the text, the no-result message or the
        composed failure message, and loading ends whatever the outcome. */
    method CompleteGenerate(outcome: Outcome)
      requires Valid()
      modifies this
      ensures Valid()
      ensures outcome.Success? && outcome.text != "" ==>
        Output() == OutputArea(outcome.text, false, false)
      ensures outcome.Success? && outcome.text == "" ==>
        Output() == OutputArea(NoResultMessage, true, false)
      ensures outcome.Failure? ==>
        Output() == OutputArea(ErrorMessage(outcome.message), true, false)
      ensures !isLoading
      ensures Keys() == old(Keys()) && Fields() == old(Fields())
    {
      match outcome {
        case Success(text) =>
          if text != "" {
            DisplayOutput(text, false);
          } else {
            DisplayOutput(NoResultMessage, true);
          }
        case Failure(message) =>
          var errorMessage := ComposeErrorMessage(message);
          DisplayOutput(errorMessage, true);
      }
      isLoading := false;
    }
  }

  /** As written: a blank key is refused with an error that is not on screen
      (the key-entry screen has no output area), and once a valid key is
      saved that same error appears on the input screen. */
  method StaleKeyError(key: string) returns (seenAtEntry: bool, seenAfterSave: bool, shown: OutputArea)
    requires Trim(key) != ""
    ensures !seenAtEntry
    ensures seenAfterSave && shown == OutputArea(EnterKeyMessage, true, false)
  {
    var app := new App.Mount(map[]);
    app.TypeApiKey("");
    assert Trim("") == "" by { TrimEmptyIffBlank(""); }
    app.SaveApiKey();
    seenAtEntry := app.OutputOnScreen();
    app.TypeApiKey(key);
    app.SaveApiKey();
    seenAfterSave := app.OutputOnScreen();
    shown := app.Output();
  }

  /** Corrected: the same steps show the error while the key is being
      entered, and nothing once the key is accepted. */
  method KeyErrorCorrected(key: string) returns (seenAtEntry: bool, seenAfterSave: bool)
    requires Trim(key) != ""
    ensures seenAtEntry && !seenAfterSave
  {
    var app := new App.Mount(map[]);
    app.TypeApiKey("");
    assert Trim("") == "" by { TrimEmptyIffBlank(""); }
    app.SaveApiKeyCorrected();
    seenAtEntry := app.OutputOnScreenCorrected();
    app.TypeApiKey(key);
    app.SaveApiKeyCorrected();
    seenAfterSave := app.OutputOnScreenCorrected();
  }
}
