/** The page component: its state, the `handleGenerate` handler split at its
    `await` into `Start` and `Complete`, the Enter-key trigger, the style and
    nickname inputs, and which panel the page shows. */
module App {
  import opened Outcomes
  import opened Text
  import opened Styles
  import GeminiService

  const InvalidStyle: string := "Estilo selecionado inválido."
  const UnexpectedError: string := "Ocorreu um erro inesperado ao gerar a imagem."
  const EnterKey: string := "Enter"

  /** The arguments `handleGenerate` passes to `generateIcon`. */
  datatype ServiceCall = ServiceCall(nickname: string, style: string)

  /** The handler's `catch`: the message of an Error, a fixed text for any
      other thrown value. */
  function ErrorMessage(thrown: Thrown): (m: string)
    ensures thrown.Error? ==> m == thrown.message
    ensures thrown.NonError? ==> m == UnexpectedError
  {
    match thrown
    case Error(message) => message
    case NonError => UnexpectedError
  }

  class AppState {
    var nickname: string
    var selectedStyle: string
    var generatedImage: Option<string>
    var isLoading: bool
    var error: Option<string>

    /** At most one of "loading", "an image" and "an error" holds. */
    ghost predicate Exclusive()
      reads this
    {
      && (isLoading ==> generatedImage.None? && error.None?)
      && !(generatedImage.Some? && error.Some?)
    }

    /** The selected style is a name from the table. */
    ghost predicate StyleOffered()
      reads this
    {
      Offers(Table, selectedStyle)
    }

    /** The state the page opens with. */
    constructor ()
      ensures nickname == [] && selectedStyle == InitialStyleName
      ensures generatedImage.None? && !isLoading && error.None?
      ensures Exclusive() && StyleOffered()
    {
      nickname := [];
      selectedStyle := InitialStyleName;
      generatedImage := None;
      isLoading := false;
      error := None;
      NamesDistinct();
    }

    /** The nickname input; it is disabled, so ignores typing, while loading. */
    method SetNickname(value: string)
      modifies this`nickname
      ensures nickname == if old(isLoading) then old(nickname) else value
    {
      if !isLoading {
        nickname := value;
      }
    }

    /** The button of the `i`-th table entry; disabled while loading. */
    method SelectStyle(i: nat)
      requires i < |Table|
      modifies this`selectedStyle
      ensures selectedStyle == if old(isLoading) then old(selectedStyle) else Table[i].name
      ensures old(StyleOffered()) ==> StyleOffered()
    {
      if !isLoading {
        selectedStyle := Table[i].name;
      }
    }

    /** `handleGenerate` up to its `await`: the guard, the reset, the style
        lookup. Returns the call to `generateIcon` it starts, if any. The
        guard's `!nickname.trim()` is written `AllSpace(nickname)`: `Trim`'s
        contract makes the two the same test. */
    method Start() returns (call: Option<ServiceCall>)
      modifies this
      ensures nickname == old(nickname) && selectedStyle == old(selectedStyle)
      // the guard: a blank nickname or a generation in flight changes nothing
      ensures AllSpace(nickname) || old(isLoading) ==>
                && call.None? && isLoading == old(isLoading)
                && generatedImage == old(generatedImage) && error == old(error)
      // a started generation clears the previous result and error
      ensures !AllSpace(nickname) && !old(isLoading) ==> generatedImage.None?
      // an unknown style ends the handler with the invalid-style message
      ensures !AllSpace(nickname) && !old(isLoading) && !Offers(Table, selectedStyle) ==>
                call.None? && !isLoading && error == Some(InvalidStyle)
      // otherwise the service gets the nickname as typed and the style's description
      ensures call.Some? <==> !AllSpace(nickname) && !old(isLoading) && Offers(Table, selectedStyle)
      ensures call.Some? ==>
                && call.value == ServiceCall(nickname, Find(Table, selectedStyle).value.description)
                && isLoading && error.None?
      // the invalid-style branch is unreachable while the selection is a
      // table name, as every way of setting it keeps it
      ensures old(StyleOffered()) && !AllSpace(nickname) && !old(isLoading) ==> call.Some?
      ensures old(Exclusive()) ==> Exclusive()
    {
      if AllSpace(nickname) || isLoading {
        return None;
      }
      isLoading := true;
      error := None;
      generatedImage := None;
      var style := Find(Table, selectedStyle);
      if style.None? {
        error := Some(ErrorMessage(Error(InvalidStyle)));
        isLoading := false;
        call := None;
      } else {
        call := Some(ServiceCall(nickname, style.value.description));
      }
    }

    /** `handleGenerate` after its `await`: the image or the error message is
        recorded and loading always ends. It resumes a call `Start` began, so
        the state is the one `Start` left. */
    method Complete(outcome: Completion<string>)
      requires isLoading && Exclusive()
      modifies this
      ensures nickname == old(nickname) && selectedStyle == old(selectedStyle)
      ensures !isLoading
      ensures outcome.Returned? ==> generatedImage == Some(outcome.value) && error.None?
      ensures outcome.Threw? ==> generatedImage.None? && error == Some(ErrorMessage(outcome.thrown))
      ensures Exclusive()
    {
      match outcome {
        case Returned(imageUrl) =>
          generatedImage := Some(imageUrl);
        case Threw(thrown) =>
          error := Some(ErrorMessage(thrown));
      }
      isLoading := false;
    }

    /** What one run of `handleGenerate` does when the service answers the
        call it receives with `service`. */
    twostate predicate Generated(service: ServiceCall -> Completion<string>)
      reads this
    {
      && nickname == old(nickname) && selectedStyle == old(selectedStyle)
      && (AllSpace(nickname) || old(isLoading) ==>
            isLoading == old(isLoading) && generatedImage == old(generatedImage) && error == old(error))
      && (!AllSpace(nickname) && !old(isLoading) ==>
            && !isLoading
            && match Find(Table, selectedStyle)
               case None => generatedImage.None? && error == Some(InvalidStyle)
               case Some(style) =>
                 match service(ServiceCall(nickname, style.description))
                 case Returned(url) => generatedImage == Some(url) && error.None?
                 case Threw(thrown) => generatedImage.None? && error == Some(ErrorMessage(thrown)))
    }

    /** `handleGenerate` run to its end. */
    method HandleGenerate(service: ServiceCall -> Completion<string>)
      modifies this
      ensures Generated(service)
      ensures old(Exclusive()) ==> Exclusive()
      ensures old(StyleOffered()) ==> StyleOffered()
    {
      var call := Start();
      if call.Some? {
        Complete(service(call.value));
      }
    }

    /** `handleKeyPress`: Enter in the nickname field runs the handler; any
        other key does nothing. */
    method HandleKeyPress(key: string, service: ServiceCall -> Completion<string>)
      modifies this
      ensures key == EnterKey ==> Generated(service)
      ensures key != EnterKey ==> unchanged(this)
      ensures old(Exclusive()) ==> Exclusive()
    {
      if key == EnterKey {
        HandleGenerate(service);
      }
    }

    /** The loading panel (shown while loading). */
    predicate ShowsLoading()
      reads this
    {
      isLoading
    }

    /** The error panel; an empty message is falsy and shows nothing. */
    predicate ShowsError()
      reads this
    {
      error.Some? && error.value != []
    }

    /** The generated image; an empty source is falsy. */
    predicate ShowsImage()
      reads this
    {
      generatedImage.Some? && generatedImage.value != []
    }

    /** The placeholder, shown when none of the three others is. */
    predicate ShowsPlaceholder()
      reads this
    {
      !isLoading && !ShowsError() && !ShowsImage()
    }

    /** The download link, shown with an image once loading has ended. */
    predicate ShowsDownload()
      reads this
    {
      ShowsImage() && !isLoading
    }

    /** In every state the handler leaves, exactly one panel is shown, and
        the download link goes with the image. */
    lemma ExactlyOnePanel()
      requires Exclusive()
      ensures ShowsLoading() || ShowsError() || ShowsImage() || ShowsPlaceholder()
      ensures ShowsLoading() ==> !ShowsError() && !ShowsImage() && !ShowsPlaceholder()
      ensures ShowsError() ==> !ShowsImage() && !ShowsPlaceholder()
      ensures ShowsImage() ==> !ShowsPlaceholder()
      ensures ShowsDownload() <==> ShowsImage()
    {
    }
  }

  /** With the real service behind it, the page's calls always pass the
      service's own input checks: a request is sent exactly when the API key is
      usable, the key error is the only failure before a request, and every
      failure reaches the page as an Error, so the page's fallback message is
      never chosen. */
  lemma PageCallsPassServiceGuards(nickname: string, i: nat, apiKey: Option<string>,
                                   api: GeminiService.ApiCall -> Completion<GeminiService.ImagesResponse>)
    requires !AllSpace(nickname) && i < |Table|
    ensures GeminiService.RequestSent(nickname, Table[i].description, apiKey).Some? <==>
              GeminiService.HasKey(apiKey)
    ensures !GeminiService.HasKey(apiKey) ==>
              GeminiService.GenerateIcon(nickname, Table[i].description, apiKey, api) ==
              Threw(Error(GeminiService.ApiKeyMissing))
    ensures GeminiService.GenerateIcon(nickname, Table[i].description, apiKey, api).Threw? ==>
              GeminiService.GenerateIcon(nickname, Table[i].description, apiKey, api).thrown.Error?
  {
    DescriptionsNonEmpty();
    assert nickname != [] by {
      if nickname == [] { assert AllSpace(nickname); }
    }
  }
}
