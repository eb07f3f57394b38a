/** The form component: its state, the form check, the file picker handler
    and the submit handler that drives the image service.

    The handler's `await` splits it in two: BeginSubmit runs up to the call,
    CompleteSubmit applies the call's outcome and clears the loading flag.
    HandleSubmit runs both around the service, as one submission does. */
module App {
  import opened Wrappers
  import opened Types
  import opened GeminiService

  const FormIncompleteMessage: string := "Por favor, preencha todos os campos e envie uma imagem."
  const GenerationFailedMessage: string := "Ocorreu um erro ao gerar as imagens. Por favor, tente novamente."

  /** The media type and encoding of a returned image, before its comma. */
  const PngMediaType: string := "data:" + "image/png;" + "base64"
  const PngDataUrlPrefix: string := PngMediaType + ","

  predicate IsPngDataUrl(s: string)
  {
    |PngDataUrlPrefix| <= |s| && s[..|PngDataUrlPrefix|] == PngDataUrlPrefix
  }

  /** The payloads as displayable PNG data URLs, in the same order. */
  function FormatImages(images: seq<string>): (urls: seq<string>)
    ensures |urls| == |images|
    ensures forall k :: 0 <= k < |urls| ==>
      IsPngDataUrl(urls[k]) && urls[k][|PngDataUrlPrefix|..] == images[k]
    decreases |images|
  {
    if images == [] then []
    else [PngDataUrlPrefix + images[0]] + FormatImages(images[1..])
  }

  lemma PngMediaTypeHasNoComma()
    ensures ',' !in PngMediaType
  {
  }

  /** Reading a formatted URL back the way the service reads the reference
      image's data URL gives the payload again (base64 has no comma). */
  lemma FormattedImagesDecode(images: seq<string>)
    requires forall k :: 0 <= k < |images| ==> ',' !in images[k]
    ensures forall k :: 0 <= k < |images| ==>
      DataUrlPayload(FormatImages(images)[k]) == Some(images[k])
  {
    var urls := FormatImages(images);
    PngMediaTypeHasNoComma();
    forall k | 0 <= k < |images|
      ensures DataUrlPayload(urls[k]) == Some(images[k])
    {
      var url := urls[k];
      assert url == PngMediaType + [','] + images[k] + [] by {
        assert url == url[..|PngDataUrlPrefix|] + url[|PngDataUrlPrefix|..];
      }
      DataUrlPayloadAfterFirstComma(PngMediaType, images[k], []);
    }
  }

  /** The submit check: a reference image and the three texts, all present;
      the people toggle and the aspect ratio play no part. */
  predicate FormComplete(referenceImage: Option<ImageFile>, keywords: string,
                         targetAudience: string, description: string)
  {
    referenceImage.Some? && keywords != "" && targetAudience != "" && description != ""
  }

  class AppState {
    var referenceImage: Option<ImageFile>
    var referenceImagePreview: Option<string>
    var keywords: string
    var targetAudience: string
    var description: string
    var includePeople: bool
    var aspectRatio: AspectRatio
    var generatedImages: seq<string>
    var isLoading: bool
    var error: Option<string>

    /** Every shown image is a PNG data URL, and an error on screen is one of
        the two messages the handler sets. */
    ghost predicate Valid()
      reads this
    {
      && (forall k :: 0 <= k < |generatedImages| ==> IsPngDataUrl(generatedImages[k]))
      && (error.Some? ==> error.value == FormIncompleteMessage || error.value == GenerationFailedMessage)
    }

    /** `isFormValid`. */
    predicate IsFormValid()
      reads this
    {
      FormComplete(referenceImage, keywords, targetAudience, description)
    }

    /** The request the handler builds from the six form values. */
    function FormRequest(): (r: AdCreativeRequest)
      reads this
      requires referenceImage.Some?
    {
      AdCreativeRequest(referenceImage.value, keywords, targetAudience, description,
                        includePeople, aspectRatio)
    }

    /** The initial values of the component's state hooks. */
    constructor ()
      ensures Valid()
      ensures referenceImage == None && referenceImagePreview == None
      ensures keywords == "" && targetAudience == "" && description == ""
      ensures !includePeople && aspectRatio == Square
      ensures generatedImages == [] && !isLoading && error == None
    {
      referenceImage := None;
      referenceImagePreview := None;
      keywords := "";
      targetAudience := "";
      description := "";
      includePeople := false;
      aspectRatio := Square;
      generatedImages := [];
      isLoading := false;
      error := None;
    }

    /** `handleFileChange`: keep the chosen file; clearing it clears the
        preview at once, while a new file's preview arrives later through
        PreviewLoaded. */
    method HandleFileChange(file: Option<ImageFile>)
      requires Valid()
      modifies this`referenceImage, this`referenceImagePreview
      ensures Valid()
      ensures referenceImage == file
      ensures file.None? ==> referenceImagePreview == None
      ensures file.Some? ==> referenceImagePreview == old(referenceImagePreview)
    {
      referenceImage := file;
      if file.None? {
        referenceImagePreview := None;
      }
    }

    /** The file reader's `onloadend`: the preview becomes the data URL read. */
    method PreviewLoaded(dataUrl: string)
      requires Valid()
      modifies this`referenceImagePreview
      ensures Valid()
      ensures referenceImagePreview == Some(dataUrl)
    {
      referenceImagePreview := Some(dataUrl);
    }

    /** `handleSubmit` up to the service call: an incomplete form only sets
        the error; otherwise loading starts, the error and the images are
        cleared, and the request to send is returned. */
    method BeginSubmit() returns (request: Option<AdCreativeRequest>)
      requires Valid()
      modifies this`isLoading, this`error, this`generatedImages
      ensures Valid()
      ensures request.Some? <==> IsFormValid()
      ensures !IsFormValid() ==>
        error == Some(FormIncompleteMessage) && isLoading == old(isLoading)
        && generatedImages == old(generatedImages)
      ensures IsFormValid() ==>
        isLoading && error == None && generatedImages == [] && request == Some(FormRequest())
    {
      if !IsFormValid() {
        error := Some(FormIncompleteMessage);
        return None;
      }
      isLoading := true;
      error := None;
      generatedImages := [];
      request := Some(FormRequest());
    }

    /** `handleSubmit` after the service call: the images on success, the
        generic message on failure, and loading off in both cases. */
    method CompleteSubmit(outcome: Result<seq<string>, ServiceError>)
      requires Valid()
      modifies this`isLoading, this`error, this`generatedImages
      ensures Valid() && !isLoading
      ensures outcome.Success? ==>
        generatedImages == FormatImages(outcome.value) && error == old(error)
      ensures outcome.Failure? ==>
        error == Some(GenerationFailedMessage) && generatedImages == old(generatedImages)
    {
      if outcome.Success? {
        generatedImages := FormatImages(outcome.value);
      } else {
        error := Some(GenerationFailedMessage);
      }
      isLoading := false;
    }

    /** One whole submission against the service. */
    method HandleSubmit(service: GenerateContentRequest -> Result<Response, string>)
      requires Valid()
      modifies this`isLoading, this`error, this`generatedImages
      ensures Valid()
      ensures !IsFormValid() ==>
        error == Some(FormIncompleteMessage) && isLoading == old(isLoading)
        && generatedImages == old(generatedImages)
      ensures IsFormValid() ==> !isLoading
      ensures IsFormValid() && GenerateAdImages(service, FormRequest()).Success? ==>
        && generatedImages == FormatImages(GenerateAdImages(service, FormRequest()).value)
        && |generatedImages| == 2
        && error == None
      ensures IsFormValid() && GenerateAdImages(service, FormRequest()).Failure? ==>
        error == Some(GenerationFailedMessage) && generatedImages == []
    {
      var request := BeginSubmit();
      if request.Some? {
        var outcome := GenerateAdImages(service, request.value);
        CompleteSubmit(outcome);
      }
    }
  }
}
