/** The wizard controller (App.tsx): the four state fields, the upload,
    generate and start-over handlers, and the fallback guards of the
    renderer. The two calls into the image service are not modelled; what
    they returned or threw is an input to the generation handler. */
module App {
  import opened Types
  import GenerationOptions

  /** What a call into the image service threw: an `Error` instance, whose
      `message` is shown, or any other value. */
  datatype Thrown = ErrorInstance(message: string) | NonError

  /** How one awaited call settled. */
  datatype Outcome<+T> = Returned(value: T) | Threw(thrown: Thrown)

  /** How a whole generation ended: the images to show, or the error text. */
  datatype Settled = Succeeded(images: seq<string>) | Failed(message: string)

  /** At most this many style prompts are turned into edit requests. */
  const MaxStylePrompts: nat := 5

  /** The message of the `Error` thrown when no image survives filtering. */
  const NoImagesMessage: string := "AI failed to generate any images. This might be a safety block. Please try a different photo or prompt."

  /** The text shown when something other than an `Error` was thrown. */
  const FallbackMessage: string := "An error occurred while generating images. Please try again."

  function Min(a: nat, b: nat): nat { if a <= b then a else b }

  /** `mode === 'custom' && customPrompt`: an optional string is truthy
      exactly when it is present and non-empty. */
  function HasCustomPrompt(mode: GenerationMode, customPrompt: Option<string>): (b: bool)
    ensures b <==> mode == Custom && customPrompt != None && customPrompt != Some("")
  {
    mode == Custom && customPrompt.Some? && customPrompt.value != ""
  }

  /** The prompts of the edit requests a generation issues, in request
      order, or what `generatePrompts` threw. The style prompts are consulted
      only in professional and creative mode. */
  function EditRequests(mode: GenerationMode, customPrompt: Option<string>, prompts: Outcome<seq<string>>): (r: Outcome<seq<string>>)
    ensures r.Threw? ==> (mode == Professional || mode == Creative) && prompts == Threw(r.thrown)
    ensures r.Returned? ==> |r.value| <= if mode == Custom then 1 else MaxStylePrompts
  {
    if HasCustomPrompt(mode, customPrompt) then Returned([customPrompt.value])
    else if mode == Professional || mode == Creative then
      match prompts
      case Threw(t) => Threw(t)
      case Returned(ps) => Returned(ps[..Min(|ps|, MaxStylePrompts)])
    else Returned([])
  }

  /** The service settles every issued edit request exactly once, in
      request order (nothing is issued when the prompts call threw). */
  predicate AnswersRequests(requests: Outcome<seq<string>>, edits: seq<Outcome<string>>) {
    requests.Returned? ==> |edits| == |requests.value|
  }

  /** `Promise.all` over settled edits: every returned value in order, or
      the first thrown value when any edit threw. */
  function SettleAll(edits: seq<Outcome<string>>): (r: Outcome<seq<string>>)
    ensures r.Returned? <==> forall i :: 0 <= i < |edits| ==> edits[i].Returned?
    ensures r.Returned? ==> |r.value| == |edits| && forall i :: 0 <= i < |edits| ==> r.value[i] == edits[i].value
    ensures r.Threw? ==> exists i :: 0 <= i < |edits| && edits[i] == Threw(r.thrown) && forall j :: 0 <= j < i ==> edits[j].Returned?
  {
    if edits == [] then Returned([])
    else match edits[0]
      case Threw(t) => Threw(t)
      case Returned(v) =>
        match SettleAll(edits[1..])
        case Threw(t) =>
          ghost var i :| 0 <= i < |edits[1..]| && edits[1..][i] == Threw(t) && forall j :: 0 <= j < i ==> edits[1..][j].Returned?;
          assert edits[i + 1] == Threw(t);
          Threw(t)
        case Returned(vs) => Returned([v] + vs)
  }

  /** `images.filter(img => img)`: the non-empty strings, in their order. */
  function ValidImages(images: seq<string>): (valid: seq<string>)
    ensures |valid| <= |images|
    ensures forall x :: x in valid <==> x in images && x != ""
  {
    if images == [] then []
    else (if images[0] != "" then [images[0]] else []) + ValidImages(images[1..])
  }

  /** The text the catch block shows for a thrown value. */
  function ErrorMessage(t: Thrown): (m: string)
    ensures t.ErrorInstance? ==> m == t.message
    ensures t.NonError? ==> m == FallbackMessage && m != ""
  {
    match t
    case ErrorInstance(m) => m
    case NonError => FallbackMessage
  }

  /** The outcome of `handleGeneration` once every service call settled. */
  function Generate(mode: GenerationMode, customPrompt: Option<string>, prompts: Outcome<seq<string>>, edits: seq<Outcome<string>>): (r: Settled)
    requires AnswersRequests(EditRequests(mode, customPrompt, prompts), edits)
    ensures r.Succeeded? ==> r.images != [] && forall i :: 0 <= i < |r.images| ==> r.images[i] != ""
  {
    match EditRequests(mode, customPrompt, prompts)
    case Threw(t) => Failed(ErrorMessage(t))
    case Returned(_) =>
      match SettleAll(edits)
      case Threw(t) => Failed(ErrorMessage(t))
      case Returned(images) =>
        var valid := ValidImages(images);
        if valid == [] then Failed(NoImagesMessage)
        else
          assert forall i :: 0 <= i < |valid| ==> valid[i] in valid;
          Succeeded(valid)
  }

  /** Filtering distributes over concatenation: what survives keeps the
      order it had. */
  lemma {:induction false} ValidImagesAppend(a: seq<string>, b: seq<string>)
    ensures ValidImages(a + b) == ValidImages(a) + ValidImages(b)
  {
    if a == [] {
      assert a + b == b;
    } else {
      assert (a + b)[1..] == a[1..] + b;
      ValidImagesAppend(a[1..], b);
    }
  }

  /** Filtering keeps a list of non-empty images as it is. */
  lemma {:induction false} ValidImagesKeepsTruthy(images: seq<string>)
    requires forall i :: 0 <= i < |images| ==> images[i] != ""
    ensures ValidImages(images) == images
  {
    if images != [] {
      ValidImagesKeepsTruthy(images[1..]);
    }
  }

  /** Custom mode never asks for style prompts: a non-empty prompt makes
      exactly one edit request with that prompt, an empty or missing one
      makes none. */
  lemma CustomModeRequests(customPrompt: Option<string>, prompts: Outcome<seq<string>>, otherPrompts: Outcome<seq<string>>)
    ensures EditRequests(Custom, customPrompt, prompts) == EditRequests(Custom, customPrompt, otherPrompts)
    ensures customPrompt.Some? && customPrompt.value != "" ==> EditRequests(Custom, customPrompt, prompts) == Returned([customPrompt.value])
    ensures customPrompt.None? || customPrompt.value == "" ==> EditRequests(Custom, customPrompt, prompts) == Returned([])
  {
  }

  /** With no edit request there is no image, so custom mode without a
      prompt takes the error path. */
  lemma CustomWithoutPromptFails(customPrompt: Option<string>, prompts: Outcome<seq<string>>)
    requires customPrompt.None? || customPrompt.value == ""
    ensures AnswersRequests(EditRequests(Custom, customPrompt, prompts), [])
    ensures Generate(Custom, customPrompt, prompts, []) == Failed(NoImagesMessage)
  {
  }

  /** Professional and creative mode ignore the custom prompt and request one
      edit for each of the first min(N, 5) style prompts, in their order;
      a throwing prompt call issues none. */
  lemma StyleModeRequests(mode: GenerationMode, customPrompt: Option<string>, prompts: Outcome<seq<string>>)
    requires mode == Professional || mode == Creative
    ensures prompts.Threw? ==> EditRequests(mode, customPrompt, prompts) == Threw(prompts.thrown)
    ensures prompts.Returned? ==> EditRequests(mode, customPrompt, prompts).Returned?
    ensures prompts.Returned? ==>
      var requests := EditRequests(mode, customPrompt, prompts).value;
      && |requests| == Min(|prompts.value|, 5) <= 5
      && forall i :: 0 <= i < |requests| ==> requests[i] == prompts.value[i]
  {
  }

  /** Filtering leaves nothing exactly when every image is empty. */
  lemma {:induction false} ValidImagesEmptyIff(images: seq<string>)
    ensures ValidImages(images) == [] <==> forall i :: 0 <= i < |images| ==> images[i] == ""
  {
    if images != [] {
      ValidImagesEmptyIff(images[1..]);
      assert forall i :: 1 <= i < |images| ==> images[i] == images[1..][i - 1];
    }
  }

  /** `Promise.all` rejects with the value thrown by the first throwing edit
      in request order. */
  lemma {:induction false} SettleAllFirstThrow(edits: seq<Outcome<string>>, i: nat)
    requires i < |edits| && edits[i].Threw?
    requires forall j :: 0 <= j < i ==> edits[j].Returned?
    ensures SettleAll(edits) == Threw(edits[i].thrown)
  {
    if i > 0 {
      SettleAllFirstThrow(edits[1..], i - 1);
    }
  }

  /** A generation succeeds exactly when every service call returned and at
      least one edit returned a non-empty image; the images shown are then
      the non-empty results in request order. */
  lemma GenerateSucceedsIff(mode: GenerationMode, customPrompt: Option<string>, prompts: Outcome<seq<string>>, edits: seq<Outcome<string>>)
    requires AnswersRequests(EditRequests(mode, customPrompt, prompts), edits)
    ensures Generate(mode, customPrompt, prompts, edits).Succeeded? <==>
      && EditRequests(mode, customPrompt, prompts).Returned?
      && (forall i :: 0 <= i < |edits| ==> edits[i].Returned?)
      && (exists i :: 0 <= i < |edits| && edits[i].Returned? && edits[i].value != "")
    ensures Generate(mode, customPrompt, prompts, edits).Succeeded? ==>
      Generate(mode, customPrompt, prompts, edits).images == ValidImages(SettleAll(edits).value)
  {
    var r := Generate(mode, customPrompt, prompts, edits);
    if EditRequests(mode, customPrompt, prompts).Returned? {
      var settled := SettleAll(edits);
      if settled.Returned? {
        var images := settled.value;
        ValidImagesEmptyIff(images);
        assert forall i :: 0 <= i < |edits| ==> images[i] == edits[i].value;
        assert r.Succeeded? <==> ValidImages(images) != [];
      } else {
        assert r.Failed?;
      }
    } else {
      assert r.Failed?;
    }
  }

  /** A failed generation shows the message of what was thrown first: by the
      prompt call, by the first throwing edit in request order, or by the
      empty-result check. */
  lemma GenerateFailureMessage(mode: GenerationMode, customPrompt: Option<string>, prompts: Outcome<seq<string>>, edits: seq<Outcome<string>>)
    requires AnswersRequests(EditRequests(mode, customPrompt, prompts), edits)
    ensures EditRequests(mode, customPrompt, prompts).Threw? ==>
      Generate(mode, customPrompt, prompts, edits) == Failed(ErrorMessage(EditRequests(mode, customPrompt, prompts).thrown))
    ensures EditRequests(mode, customPrompt, prompts).Returned? ==>
      forall i :: (0 <= i < |edits| && edits[i].Threw? && forall j :: 0 <= j < i ==> edits[j].Returned?) ==>
        Generate(mode, customPrompt, prompts, edits) == Failed(ErrorMessage(edits[i].thrown))
    ensures (EditRequests(mode, customPrompt, prompts).Returned? &&
      forall i :: 0 <= i < |edits| ==> edits[i].Returned? && edits[i].value == "") ==>
        Generate(mode, customPrompt, prompts, edits) == Failed(NoImagesMessage)
  {
    if EditRequests(mode, customPrompt, prompts).Returned? {
      forall i | 0 <= i < |edits| && edits[i].Threw? && (forall j :: 0 <= j < i ==> edits[j].Returned?)
        ensures SettleAll(edits) == Threw(edits[i].thrown)
      {
        SettleAllFirstThrow(edits, i);
      }
      if SettleAll(edits).Returned? {
        var images := SettleAll(edits).value;
        ValidImagesEmptyIff(images);
        assert forall i :: 0 <= i < |edits| ==> images[i] == edits[i].value;
      }
    }
  }

  /** A professional or creative generation shows at most five images, a
      custom one at most one. */
  lemma GenerateBounded(mode: GenerationMode, customPrompt: Option<string>, prompts: Outcome<seq<string>>, edits: seq<Outcome<string>>)
    requires AnswersRequests(EditRequests(mode, customPrompt, prompts), edits)
    ensures Generate(mode, customPrompt, prompts, edits).Succeeded? ==>
      |Generate(mode, customPrompt, prompts, edits).images| <= if mode == Custom then 1 else MaxStylePrompts
  {
  }

  /** A prompt the options form submits is non-empty, so the controller
      turns it into exactly one edit request with that very text. */
  lemma SubmittedPromptMakesOneRequest(prompt: string, prompts: Outcome<seq<string>>)
    requires GenerationOptions.CustomSubmission(prompt).Some?
    ensures
      var call := GenerationOptions.CustomSubmission(prompt).value;
      EditRequests(call.mode, call.customPrompt, prompts) == Returned([prompt])
  {
  }

  /** What `renderStep` shows. */
  datatype View =
    | UploadView
    | OptionsView(image: UploadedImage, error: Option<string>)
    | LoadingView
    | ResultsView(original: UploadedImage, generated: seq<string>)
    | NoView

  /** The wizard's state: the active step and the three nullable fields. */
  class Wizard {
    var step: AppStep
    var uploadedImage: Option<UploadedImage>
    var generatedImages: seq<string>
    var error: Option<string>

    /** The data each screen needs is present: the options and loading
        screens have an upload, the results screen also has images. */
    ghost predicate Consistent()
      reads this
    {
      && (step == Options || step == Loading ==> uploadedImage.Some?)
      && (step == Results ==> uploadedImage.Some? && generatedImages != [])
    }

    constructor ()
      ensures step == Upload && uploadedImage == None && generatedImages == [] && error == None
      ensures Consistent()
    {
      step := Upload;
      uploadedImage := None;
      generatedImages := [];
      error := None;
    }

    method HandleImageUpload(image: UploadedImage)
      modifies this
      ensures uploadedImage == Some(image) && step == Options
      ensures generatedImages == old(generatedImages) && error == old(error)
      ensures Consistent()
    {
      uploadedImage := Some(image);
      step := Options;
    }

    /** The part of `handleGeneration` that runs before the first await:
        without an upload nothing happens, otherwise the loading screen is
        entered with the error and the previous images cleared. No service
        outcome is an input here. */
    method BeginGeneration() returns (started: bool)
      modifies this
      ensures started <==> old(uploadedImage).Some?
      ensures uploadedImage == old(uploadedImage)
      ensures started ==> step == Loading && error == None && generatedImages == []
      ensures !started ==> step == old(step) && generatedImages == old(generatedImages) && error == old(error)
      ensures old(Consistent()) ==> Consistent()
    {
      if uploadedImage.None? {
        return false;
      }
      step := Loading;
      error := None;
      generatedImages := [];
      started := true;
    }

    /** `handleGeneration(mode, customPrompt)` once the service calls it
        makes have settled as `prompts` and `edits`. */
    method HandleGeneration(mode: GenerationMode, customPrompt: Option<string>, prompts: Outcome<seq<string>>, edits: seq<Outcome<string>>)
      requires AnswersRequests(EditRequests(mode, customPrompt, prompts), edits)
      modifies this
      ensures uploadedImage == old(uploadedImage)
      ensures old(uploadedImage).None? ==>
        step == old(step) && generatedImages == old(generatedImages) && error == old(error)
      ensures old(uploadedImage).Some? ==>
        match Generate(mode, customPrompt, prompts, edits)
        case Succeeded(images) => step == Results && generatedImages == images && error == None
        case Failed(message) => step == Options && generatedImages == [] && error == Some(message)
      ensures old(Consistent()) ==> Consistent()
    {
      var started := BeginGeneration();
      if !started {
        return;
      }
      match Generate(mode, customPrompt, prompts, edits)
      case Succeeded(images) =>
        generatedImages := images;
        step := Results;
      case Failed(message) =>
        error := Some(message);
        step := Options;
    }

    method HandleStartOver()
      modifies this
      ensures step == Upload && uploadedImage == None && generatedImages == [] && error == None
      ensures Consistent()
    {
      step := Upload;
      uploadedImage := None;
      generatedImages := [];
      error := None;
    }

    /** `renderStep`: the view of the active step; the options and results
        steps start over when the data they need is missing. */
    method RenderStep() returns (view: View)
      modifies this
      ensures old(step) == Upload ==> view == UploadView
      ensures old(step) == Loading ==> view == LoadingView
      ensures old(step) == Options ==>
        if old(uploadedImage).None? then view == NoView
        else view == OptionsView(old(uploadedImage).value, old(error))
      ensures old(step) == Results ==>
        if old(uploadedImage).None? || old(generatedImages) == [] then view == NoView
        else view == ResultsView(old(uploadedImage).value, old(generatedImages))
      ensures view == NoView ==> step == Upload && uploadedImage == None && generatedImages == [] && error == None
      ensures view != NoView ==>
        step == old(step) && uploadedImage == old(uploadedImage) && generatedImages == old(generatedImages) && error == old(error)
      ensures old(Consistent()) ==> view != NoView
      ensures old(Consistent()) ==> Consistent()
    {
      match step
      case Upload =>
        view := UploadView;
      case Options =>
        if uploadedImage.None? {
          HandleStartOver();
          view := NoView;
        } else {
          view := OptionsView(uploadedImage.value, error);
        }
      case Loading =>
        view := LoadingView;
      case Results =>
        if uploadedImage.None? || generatedImages == [] {
          HandleStartOver();
          view := NoView;
        } else {
          view := ResultsView(uploadedImage.value, generatedImages);
        }
    }
  }
}
