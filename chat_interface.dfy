/**
 * The chat intake flow of `ChatInterface`: a step machine over the component
 * state (`currentStep`, `collectedData`, `messages`, `inputValue`). Each
 * handler is one atomic update; the delays before the assistant's replies
 * are collapsed into it, and message timestamps are left out.
 */
module ChatInterface {
  import opened Wrappers
  import opened Text
  import opened Browser

  datatype Step = Initial | Screenshot | Module | Description | Complete

  datatype Sender = User | Ai

  datatype Message = Message(sender: Sender, text: string)

  /** What the conversation has collected so far. */
  datatype CollectedData = CollectedData(
    screenshot: Option<File>,
    screenshotPreview: Option<string>,
    moduleName: string,
    description: string)

  const Greeting := "\U{1F44B} Hello! I'm your AI Support Assistant. I'm here to help you resolve any issues you're experiencing. To get started, could you please upload a screenshot of the problem?"
  const ScreenshotReceived := "Perfect! I've received your screenshot. Now, which module are you experiencing issues with?"
  const Analysing := "Thank you for providing all the details! Let me analyze this information and search our knowledge base for similar issues..."
  const FoundArticles := "I found some relevant articles that might help. Would you like to review them, or shall I create a support ticket for you?"

  function UploadNotice(f: File): string {
    "\U{1F4CE} Uploaded screenshot: " + f.name
  }

  function ModuleNotice(moduleName: string): string {
    "Module: " + moduleName
  }

  function ModuleReply(moduleName: string): (r: string)
    ensures |r| > |moduleName|
  {
    "Got it! You're having issues with the " + moduleName
    + ". Could you please describe the problem in detail? What were you trying to do, and what happened instead?"
  }

  /** `file.type.startsWith("image/")`: the MIME type is `image/` followed by a subtype. */
  predicate IsImage(f: File)
    ensures IsImage(f) <==> |f.mimeType| >= 6 && f.mimeType == "image/" + f.mimeType[6..]
  {
    StartsWith(f.mimeType, "image/")
  }

  /** `getProgressPercentage` for a step. */
  function Progress(s: Step): (r: nat)
    ensures 25 <= r <= 100 && r % 25 == 0
    ensures r == 100 <==> s == Complete
    ensures r == 25 <==> s == Initial || s == Screenshot
  {
    match s
    case Initial => 25
    case Screenshot => 25
    case Module => 50
    case Description => 75
    case Complete => 100
  }

  /** The position of a step in the intended flow initial, screenshot, module, description, complete. */
  function Rank(s: Step): nat {
    match s
    case Initial => 0
    case Screenshot => 1
    case Module => 2
    case Description => 3
    case Complete => 4
  }

  /** Progress runs from 25 to 100, reaches 100 only when complete, and never falls along the flow. */
  lemma ProgressAlongFlow(s: Step, t: Step)
    ensures 25 <= Progress(s) <= 100
    ensures Progress(s) == 100 <==> s == Complete
    ensures Rank(s) <= Rank(t) ==> Progress(s) <= Progress(t)
    ensures Rank(s) < Rank(t) && s != Initial ==> Progress(s) < Progress(t)
  {
  }

  /** Three appends in a row are one append of three, and leave the first element alone. */
  lemma AppendThree(s: seq<Message>, m1: Message, m2: Message, m3: Message)
    requires |s| >= 1
    ensures s + [m1] + [m2] + [m3] == s + [m1, m2, m3]
    ensures (s + [m1, m2, m3])[0] == s[0]
  {
  }

  class Chat {
    var step: Step
    var messages: seq<Message>
    var data: CollectedData
    var inputValue: string

    /**
     * The greeting stays first; no handler ever enters `screenshot`; the
     * `module` step is only reached with an image recorded; `complete` only
     * with a non-blank description.
     */
    ghost predicate Valid()
      reads this
      ensures Valid() ==> |messages| >= 1 && (Progress(step) == 25 <==> step == Initial)
    {
      && step != Screenshot
      && |messages| >= 1 && messages[0] == Message(Ai, Greeting)
      && (step == Module ==> data.screenshot.Some? && IsImage(data.screenshot.value))
      && (step == Complete ==> !IsBlank(data.description))
    }

    constructor ()
      ensures Valid()
      ensures step == Initial && messages == [Message(Ai, Greeting)]
      ensures data == CollectedData(None, None, "", "") && inputValue == ""
    {
      step := Initial;
      messages := [Message(Ai, Greeting)];
      data := CollectedData(None, None, "", "");
      inputValue := "";
    }

    /** `getProgressPercentage` for the current step: between 25 and 100, and 100 only once complete. */
    function ProgressPercentage(): (p: nat)
      reads this
      ensures 25 <= p <= 100 && (p == 100 <==> step == Complete)
      ensures p == Progress(step)
    {
      Progress(step)
    }

    /** `addMessage`: exactly one message at the end, earlier ones untouched. */
    method AddMessage(sender: Sender, text: string)
      requires Valid()
      modifies this`messages
      ensures Valid()
      ensures messages == old(messages) + [Message(sender, text)]
    {
      messages := messages + [Message(sender, text)];
    }

    /** `handleFileUpload`: `preview` is what the file reader produced for `file`. */
    method HandleFileUpload(file: Option<File>, preview: string)
      requires Valid()
      modifies this
      ensures Valid()
      ensures if file.Some? && IsImage(file.value) then
          && data == old(data).(screenshot := file, screenshotPreview := Some(preview))
          && messages == old(messages) + [Message(User, UploadNotice(file.value)), Message(Ai, ScreenshotReceived)]
          && step == Module && inputValue == old(inputValue)
        else
          && data == old(data) && messages == old(messages)
          && step == old(step) && inputValue == old(inputValue)
    {
      if file.Some? && IsImage(file.value) {
        data := data.(screenshot := file, screenshotPreview := Some(preview));
        AddMessage(User, UploadNotice(file.value));
        AddMessage(Ai, ScreenshotReceived);
        step := Module;
      }
    }

    /** `handleModuleSelect`: accepted in any step. */
    method HandleModuleSelect(moduleName: string)
      requires Valid()
      modifies this
      ensures Valid()
      ensures data == old(data).(moduleName := moduleName)
      ensures messages == old(messages) + [Message(User, ModuleNotice(moduleName)), Message(Ai, ModuleReply(moduleName))]
      ensures step == Description && inputValue == old(inputValue)
    {
      data := data.(moduleName := moduleName);
      AddMessage(User, ModuleNotice(moduleName));
      AddMessage(Ai, ModuleReply(moduleName));
      step := Description;
    }

    /** The input box's `onChange`. */
    method SetInputValue(value: string)
      requires Valid()
      modifies this
      ensures Valid()
      ensures inputValue == value
      ensures step == old(step) && data == old(data) && messages == old(messages)
    {
      inputValue := value;
    }

    /** `handleDescriptionSubmit`: a blank input is ignored; otherwise it becomes the description. */
    method HandleDescriptionSubmit()
      requires Valid()
      modifies this
      ensures Valid()
      ensures if IsBlank(old(inputValue)) then
          && step == old(step) && data == old(data)
          && messages == old(messages) && inputValue == old(inputValue)
        else
          && data == old(data).(description := old(inputValue))
          && messages == old(messages) + [Message(User, old(inputValue)), Message(Ai, Analysing), Message(Ai, FoundArticles)]
          && inputValue == "" && step == Complete
    {
      // `!inputValue.trim()`, which `Text.TrimIsEmpty` shows is blankness
      if IsBlank(inputValue) {
        return;
      }
      var text := inputValue;
      ghost var before := messages;
      data := data.(description := text);
      AddMessage(User, text);
      inputValue := "";
      AddMessage(Ai, Analysing);
      AddMessage(Ai, FoundArticles);
      AppendThree(before, Message(User, text), Message(Ai, Analysing), Message(Ai, FoundArticles));
      step := Complete;
    }

    /** `handleSendMessage`: submits only in the `description` step. */
    method HandleSendMessage()
      requires Valid()
      modifies this
      ensures Valid()
      ensures old(step) != Description ==>
        step == old(step) && data == old(data) && messages == old(messages) && inputValue == old(inputValue)
      ensures old(step) == Description && !IsBlank(old(inputValue)) ==>
        && data == old(data).(description := old(inputValue))
        && messages == old(messages) + [Message(User, old(inputValue)), Message(Ai, Analysing), Message(Ai, FoundArticles)]
        && inputValue == "" && step == Complete
      ensures old(step) == Description && IsBlank(old(inputValue)) ==>
        step == old(step) && data == old(data) && messages == old(messages) && inputValue == old(inputValue)
    {
      if step == Description {
        HandleDescriptionSubmit();
      }
    }
  }
}
