/** `generateIcon`: input guards, the API-key check, the prompt template, the
    request for one PNG image, the check of the first returned image and the
    `data:` URI returned to the page. The image API itself is a parameter: a
    function from the call made to how that call ends. */
module GeminiService {
  import opened Outcomes
  import Text

  const NicknameRequired: string := "O apelido é obrigatório para gerar um ícone."
  const StyleRequired: string := "O estilo é obrigatório para gerar um ícone."
  const ApiKeyMissing: string := "A variável de ambiente API_KEY não está configurada."
  const NoImageGenerated: string :=
    "A API não conseguiu gerar uma imagem para este apelido. Por favor, tente um apelido diferente."
  const CommunicationFailure: string := "Falha ao se comunicar com a API do Gemini."

  const ImageModel: string := "imagen-4.0-generate-001"
  const PngMimeType: string := "image/png"
  const SquareAspect: string := "1:1"

  const PromptHead: string :=
    "Um ícone de avatar épico e de alta resolução para um jogador, com o apelido '"
  const PromptMiddle: string :=
    "' estilizado de forma criativa e artística no centro. Estilo visual: "
  const PromptTail: string :=
    ". Detalhado, vibrante, arte digital polida, ideal para um perfil de jogo."

  const DataUriPrefix: string := "data:image/png;base64,"

  /** A client built from an API key. */
  datatype Client = Client(apiKey: string)

  datatype ImageConfig = ImageConfig(numberOfImages: nat, outputMimeType: string, aspectRatio: string)
  datatype ImageRequest = ImageRequest(model: string, prompt: string, config: ImageConfig)

  /** One `generateImages` call: the client it goes through and the request. */
  datatype ApiCall = ApiCall(client: Client, request: ImageRequest)

  /** The part of the API's response the service reads. Each level may be
      missing; `imageBytes` is base64 text that is never decoded here. */
  datatype Image = Image(imageBytes: Option<string>)
  datatype GeneratedImage = GeneratedImage(image: Option<Image>)
  datatype ImagesResponse = ImagesResponse(generatedImages: Option<seq<GeneratedImage>>)

  /** `!apiKey` is false: the key is present and not the empty string. */
  predicate HasKey(apiKey: Option<string>) {
    apiKey.Some? && apiKey.value != []
  }

  /** `getAiClient`: a client for a usable key, a configuration error
      otherwise. */
  function GetAiClient(apiKey: Option<string>): (r: Completion<Client>)
    ensures r.Returned? <==> HasKey(apiKey)
    ensures r.Returned? ==> r.value.apiKey == apiKey.value
    ensures r.Threw? ==> r.thrown == Error(ApiKeyMissing)
  {
    if apiKey.None? || apiKey.value == [] then Threw(Error(ApiKeyMissing))
    else Returned(Client(apiKey.value))
  }

  /** The prompt template. The nickname stands verbatim between the quotes and
      the style verbatim after "Estilo visual: ". */
  function Prompt(nickname: string, style: string): (p: string)
    ensures |p| == |PromptHead| + |nickname| + |PromptMiddle| + |style| + |PromptTail|
    ensures p[..|PromptHead|] == PromptHead
    ensures p[|PromptHead|..|PromptHead| + |nickname|] == nickname
    ensures p[|PromptHead| + |nickname|..|PromptHead| + |nickname| + |PromptMiddle|] == PromptMiddle
    ensures p[|p| - |PromptTail| - |style|..|p| - |PromptTail|] == style
    ensures p[|p| - |PromptTail|..] == PromptTail
  {
    var front := PromptHead + nickname + PromptMiddle;
    Text.ThreeParts(PromptHead, nickname, PromptMiddle);
    Text.ThreeParts(front, style, PromptTail);
    var p := front + style + PromptTail;
    assert p[..|PromptHead|] == front[..|PromptHead|];
    assert p[|PromptHead|..|PromptHead| + |nickname|] == front[|PromptHead|..|PromptHead| + |nickname|];
    assert p[|PromptHead| + |nickname|..|front|] == front[|PromptHead| + |nickname|..];
    p
  }

  /** The request: the fixed model, the prompt, one square PNG image. */
  function Request(nickname: string, style: string): (r: ImageRequest)
    ensures r.model == ImageModel && r.prompt == Prompt(nickname, style)
    ensures r.config.numberOfImages == 1
    ensures r.config.outputMimeType == PngMimeType && r.config.aspectRatio == SquareAspect
  {
    ImageRequest(ImageModel, Prompt(nickname, style), ImageConfig(1, PngMimeType, SquareAspect))
  }

  /** `response.generatedImages?.[0]?.image?.imageBytes`, kept only when it is
      truthy (present and not the empty string). */
  function FirstImageBytes(response: ImagesResponse): (r: Option<string>)
    ensures r.Some? <==>
      && response.generatedImages.Some?
      && |response.generatedImages.value| > 0
      && response.generatedImages.value[0].image.Some?
      && response.generatedImages.value[0].image.value.imageBytes.Some?
      && response.generatedImages.value[0].image.value.imageBytes.value != []
    ensures r.Some? ==>
              && r.value != []
              && Some(r.value) == response.generatedImages.value[0].image.value.imageBytes
  {
    match response.generatedImages
    case None => None
    case Some(images) =>
      if |images| == 0 then None
      else match images[0].image
        case None => None
        case Some(image) =>
          if image.imageBytes.Some? && image.imageBytes.value != [] then image.imageBytes else None
  }

  /** The returned image source: the fixed PNG prefix and the payload.
      Stripping the prefix gives back the payload unchanged. */
  function DataUri(imageBytes: string): (uri: string)
    ensures |uri| == |DataUriPrefix| + |imageBytes|
    ensures Payload(uri) == Some(imageBytes)
  {
    var uri := DataUriPrefix + imageBytes;
    assert uri[..|DataUriPrefix|] == DataUriPrefix && uri[|DataUriPrefix|..] == imageBytes;
    uri
  }

  /** Reads back the payload of a PNG data URI, if `uri` starts with the
      prefix. */
  function Payload(uri: string): (r: Option<string>)
    ensures r.Some? <==> |uri| >= |DataUriPrefix| && uri[..|DataUriPrefix|] == DataUriPrefix
  {
    if |uri| >= |DataUriPrefix| && uri[..|DataUriPrefix|] == DataUriPrefix
    then Some(uri[|DataUriPrefix|..])
    else None
  }

  /** A string the page can read back is exactly the data URI of what it
      reads. */
  lemma DataUriOfPayload(uri: string)
    requires Payload(uri).Some?
    ensures DataUri(Payload(uri).value) == uri
  {
    assert uri == uri[..|DataUriPrefix|] + uri[|DataUriPrefix|..];
  }

  /** The `catch` of the service: an Error is rethrown as it is, anything
      else becomes an Error with the communication-failure message. */
  function Rethrown(thrown: Thrown): (r: Thrown)
    ensures r.Error?
    ensures thrown.Error? ==> r == thrown
    ensures thrown.NonError? ==> r.message == CommunicationFailure
  {
    if thrown.Error? then thrown else Error(CommunicationFailure)
  }

  /** The body of the `try` block, before its `catch`: the client, the one
      request, the first image, the data URI. What it throws is the key error,
      whatever the API throws, or the no-image error. */
  function Attempt(nickname: string, style: string, apiKey: Option<string>,
                   api: ApiCall -> Completion<ImagesResponse>): (r: Completion<string>)
    ensures !HasKey(apiKey) ==> r == Threw(Error(ApiKeyMissing))
    ensures HasKey(apiKey) ==>
      var answer := api(ApiCall(Client(apiKey.value), Request(nickname, style)));
      && (answer.Threw? ==> r == Threw(answer.thrown))
      && (answer.Returned? && FirstImageBytes(answer.value).None? ==> r == Threw(Error(NoImageGenerated)))
      && (answer.Returned? && FirstImageBytes(answer.value).Some? ==>
            r.Returned? && Payload(r.value) == FirstImageBytes(answer.value))
    ensures r.Returned? ==> HasKey(apiKey) && Payload(r.value).Some? && Payload(r.value).value != []
  {
    match GetAiClient(apiKey)
    case Threw(thrown) => Threw(thrown)
    case Returned(client) =>
      match api(ApiCall(client, Request(nickname, style)))
      case Threw(thrown) => Threw(thrown)
      case Returned(response) =>
        match FirstImageBytes(response)
        case None => Threw(Error(NoImageGenerated))
        case Some(imageBytes) => Returned(DataUri(imageBytes))
  }

  /** The call `generateIcon(nickname, style)` issues, if any: none when an
      input is empty or the key is unusable. */
  function RequestSent(nickname: string, style: string, apiKey: Option<string>): (r: Option<ApiCall>)
    ensures r.Some? <==> nickname != [] && style != [] && HasKey(apiKey)
    ensures r.Some? ==> r.value.client.apiKey == apiKey.value && r.value.request == Request(nickname, style)
  {
    if nickname != [] && style != [] && HasKey(apiKey)
    then Some(ApiCall(Client(apiKey.value), Request(nickname, style)))
    else None
  }

  /** `generateIcon(nickname, style)` with the key it reads and the image API
      it calls made explicit. */
  function GenerateIcon(nickname: string, style: string, apiKey: Option<string>,
                        api: ApiCall -> Completion<ImagesResponse>): (r: Completion<string>)
    // the page only ever receives Error values
    ensures r.Threw? ==> r.thrown.Error?
    // the guards, in order: nickname, style, API key
    ensures nickname == [] ==> r == Threw(Error(NicknameRequired))
    ensures nickname != [] && style == [] ==> r == Threw(Error(StyleRequired))
    ensures nickname != [] && style != [] && !HasKey(apiKey) ==> r == Threw(Error(ApiKeyMissing))
    // once the request is sent, the outcome is decided by the API's answer
    ensures RequestSent(nickname, style, apiKey).Some? ==>
      var answer := api(RequestSent(nickname, style, apiKey).value);
      && (answer.Threw? ==> r == Threw(Rethrown(answer.thrown)))
      && (answer.Returned? && FirstImageBytes(answer.value).None? ==> r == Threw(Error(NoImageGenerated)))
      && (answer.Returned? && FirstImageBytes(answer.value).Some? ==>
            r.Returned? && Payload(r.value) == FirstImageBytes(answer.value))
    // a success is a data URI carrying a non-empty payload, and it happens only
    // after a request was sent
    ensures r.Returned? ==>
              && RequestSent(nickname, style, apiKey).Some?
              && Payload(r.value).Some? && Payload(r.value).value != []
              && |r.value| > |DataUriPrefix|
  {
    if nickname == [] then Threw(Error(NicknameRequired))
    else if style == [] then Threw(Error(StyleRequired))
    else
      match Attempt(nickname, style, apiKey, api)
      case Returned(uri) => Returned(uri)
      case Threw(thrown) => Threw(Rethrown(thrown))
  }

  /** No request is issued when `RequestSent` says so: the result is then the
      same whatever the API would answer; when a request is issued, only the
      answer to that request matters. */
  lemma GenerateIconConsultsApiOnlyForRequestSent(nickname: string, style: string, apiKey: Option<string>,
                                                    api1: ApiCall -> Completion<ImagesResponse>,
                                                    api2: ApiCall -> Completion<ImagesResponse>)
    requires RequestSent(nickname, style, apiKey).None? ||
             api1(RequestSent(nickname, style, apiKey).value) == api2(RequestSent(nickname, style, apiKey).value)
    ensures GenerateIcon(nickname, style, apiKey, api1) == GenerateIcon(nickname, style, apiKey, api2)
  {
  }

  /** Only the first generated image is examined. */
  lemma OnlyFirstImageMatters(first: GeneratedImage, rest1: seq<GeneratedImage>, rest2: seq<GeneratedImage>)
    ensures FirstImageBytes(ImagesResponse(Some([first] + rest1))) ==
            FirstImageBytes(ImagesResponse(Some([first] + rest2)))
  {
  }
}
