/** The image service: it turns a creative request into two generation calls
    to the remote model and takes one inline image out of each response.

    The remote `generateContent` call itself is not modelled: it is the
    parameter `service`, a function from the request the core sends to either
    the response or the message of the exception the call throws. */
module GeminiService {
  import opened Wrappers
  import opened Types
  import opened JsText

  // ---------------------------------------------------------------------
  // Errors
  // ---------------------------------------------------------------------

  const NoImageMessage: string :=
    "A API não retornou uma imagem. Isso pode ocorrer devido a políticas de segurança ou a um erro inesperado."

  /** What a generation can fail with: the response held no inline image, or
      the remote call threw (its error is passed on unchanged). */
  datatype ServiceError = NoImageReturned | Transport(reason: string)
  {
    function Message(): string
    {
      match this
      case NoImageReturned => NoImageMessage
      case Transport(reason) => reason
    }
  }

  // ---------------------------------------------------------------------
  // The reference image as a request part (fileToGenerativePart)
  // ---------------------------------------------------------------------

  /** The inline image part the core sends: the base64 text taken out of the
      file's data URL (absent when the URL has no comma, as `split(',')[1]`
      is then `undefined`) and the file's MIME type. */
  datatype GenerativePart = GenerativePart(data: Option<string>, mimeType: string)

  /** `dataUrl.split(',')[1]`. */
  function DataUrlPayload(dataUrl: string): (payload: Option<string>)
    ensures payload.None? <==> ',' !in dataUrl
    ensures payload.Some? ==> ',' !in payload.value
  {
    var pieces := Split(dataUrl, ',');
    if |pieces| > 1 then Some(pieces[1]) else None
  }

  /** The payload is the text between the first comma and the next comma (or
      the end of the URL). */
  lemma DataUrlPayloadAfterFirstComma(head: string, payload: string, tail: string)
    requires ',' !in head && ',' !in payload
    requires tail == [] || tail[0] == ','
    ensures DataUrlPayload(head + [','] + payload + tail) == Some(payload)
  {
    var rest := payload + tail;
    assert head + [','] + payload + tail == head + ([','] + rest);
    SplitAfterPlainPrefix(head, [','] + rest, ',');
    assert ([','] + rest)[0] == ',' && ([','] + rest)[1..] == rest;
    var after := Split([','] + rest, ',');
    assert after == [""] + Split(rest, ',');
    assert head + after[0] == head;
    var pieces := Split(head + ([','] + rest), ',');
    assert pieces == [head] + after[1..];
    SplitAfterPlainPrefix(payload, tail, ',');
    if tail == [] {
      assert payload + tail == payload;
    } else {
      assert Split(tail, ',')[0] == "";
    }
    assert pieces[1] == Split(rest, ',')[0] == payload;
  }

  /** The part pairs the payload with the file's MIME type unchanged. */
  function FileToGenerativePart(file: ImageFile): (part: GenerativePart)
    ensures part.mimeType == file.mimeType
    ensures part.data.Some? <==> ',' in file.dataUrl
  {
    GenerativePart(DataUrlPayload(file.dataUrl), file.mimeType)
  }

  // ---------------------------------------------------------------------
  // The prompt (createPrompt)
  // ---------------------------------------------------------------------

  /** The request without its reference image: all that the prompt may see. */
  datatype PromptFields = PromptFields(
    keywords: string,
    targetAudience: string,
    description: string,
    includePeople: bool,
    aspectRatio: AspectRatio)

  function FieldsOf(r: AdCreativeRequest): PromptFields
  {
    PromptFields(r.keywords, r.targetAudience, r.description, r.includePeople, r.aspectRatio)
  }

  /** The marker right before the variation number. */
  const VariationMarker: string := "variação #"

  /** The fixed wording of the prompt: the pieces of text around the six
      values and the two human-presence sentences. The properties below hold
      for any wording; SourceTemplate is the wording the service uses. */
  datatype PromptTemplate = PromptTemplate(
    intro: string,
    afterKeywords: string,
    afterAudience: string,
    afterDescription: string,
    afterPresence: string,
    styleAndRules: string,
    closing: string,
    withPeople: string,
    withoutPeople: string)
  {
    /** The fixed pieces in order; a value goes between each two neighbours,
        and the piece before the variation number ends with the marker. */
    function Literals(): (pieces: seq<string>)
      ensures |pieces| == 7
    {
      [intro, afterKeywords, afterAudience, afterDescription, afterPresence,
       styleAndRules + VariationMarker, closing]
    }

    /** The human-presence clause chosen by the people toggle. */
    function PresenceSentence(includePeople: bool): string
    {
      if includePeople then withPeople else withoutPeople
    }

    /** The two presence sentences differ in their first character. */
    predicate PresenceSentencesDiffer()
    {
      |withPeople| > 0 && |withoutPeople| > 0 && withPeople[0] != withoutPeople[0]
    }
  }

  const SourceTemplate: PromptTemplate := PromptTemplate(
    "Gere uma imagem publicitária atraente e de alta resolução com base na foto do produto fornecida. "
    + "A imagem final deve ser fotorrealista e adequada para uma campanha de marketing profissional.\n"
    + "\n"
    + "Elementos-chave a incorporar:\n"
    + "- **Produto Principal:** O produto na imagem fornecida pelo usuário é o herói. "
    + "Integre-o de forma harmoniosa e atraente em um novo cenário. "
    + "Não o coloque apenas em um novo fundo; crie um ambiente coeso ao seu redor.\n"
    + "- **Palavras-chave:** ",
    ". Elas devem influenciar o clima, os objetos e o tema geral.\n"
    + "- **Público-alvo:** A cena deve atrair: ",
    ".\n- **Conceito do Anúncio:** ",
    ".\n- **Presença Humana:** ",
    "\n- **Proporção da Imagem:** A composição final deve ser enquadrada para se ajustar a uma proporção de ",
    ".\n- **Estilo:** Moderno, limpo, sofisticado e visualmente impressionante. "
    + "A iluminação deve ser profissional e destacar as características do produto.\n"
    + "\n"
    + "**Instruções Cruciais:**\n"
    + "- NÃO adicione texto, logotipos ou marcas d'água.\n"
    + "- A saída deve ser uma única imagem completa.\n"
    + "- Esta é a ",
    ". Por favor, gere um conceito distintamente diferente de quaisquer tentativas anteriores.\n",
    "Inclua " + "uma ou mais pessoas fotorrealistas interagindo ou reagindo positivamente ao produto. "
    + "Elas devem corresponder à descrição do público-alvo.",
    "Não " + "inclua pessoas ou figuras humanas na imagem.")

  lemma SourcePresenceSentencesDiffer()
    ensures SourceTemplate.PresenceSentencesDiffer()
  {
    assert SourceTemplate.withPeople[0] == 'I';
    assert SourceTemplate.withoutPeople[0] == 'N';
  }

  /** The values interpolated into the template, in template order. */
  function PromptValues(t: PromptTemplate, f: PromptFields, variation: nat): (values: seq<string>)
    ensures |values| == 6
  {
    [f.keywords, f.targetAudience, f.description, t.PresenceSentence(f.includePeople),
     AspectRatioText(f.aspectRatio), NumberToString(variation)]
  }

  /** The prompt with the given wording. */
  function Prompt(t: PromptTemplate, f: PromptFields, variation: nat): string
  {
    Render(t.Literals(), PromptValues(t, f, variation))
  }

  /** `createPrompt`. */
  function CreatePrompt(f: PromptFields, variation: nat): string
  {
    Prompt(SourceTemplate, f, variation)
  }

  /** Where value `i` starts in the prompt: after the fixed pieces and the
      values before it (0 keywords, 1 audience, 2 description, 3 human
      presence, 4 aspect ratio, 5 variation number). */
  function SlotAt(t: PromptTemplate, f: PromptFields, variation: nat, i: nat): nat
    requires i < 6
  {
    SlotOffset(t.Literals(), PromptValues(t, f, variation), i)
  }

  /** What a template with six values holds where, whatever its fixed pieces:
      each value at its slot, and the last value followed by the last piece. */
  lemma SixSlotTemplate(L: seq<string>, V: seq<string>)
    requires |L| == 7 && |V| == 6
    ensures var p := Render(L, V);
      && (forall i :: 0 <= i < 6 ==> Occurs(V[i], p, SlotOffset(L, V, i)))
      && p[SlotOffset(L, V, 5)..] == V[5] + L[6]
  {
    forall i | 0 <= i < 6
      ensures Occurs(V[i], Render(L, V), SlotOffset(L, V, i))
    {
      SlotHolds(L, V, i);
    }
    SlotHolds(L, V, 5);
    assert L[6..] == [L[6]] && V[6..] == [];
  }

  /** Each value of the request stands verbatim at its slot of the prompt. */
  lemma PromptSlots(t: PromptTemplate, f: PromptFields, variation: nat)
    ensures var p := Prompt(t, f, variation);
      && Occurs(f.keywords, p, SlotAt(t, f, variation, 0))
      && Occurs(f.targetAudience, p, SlotAt(t, f, variation, 1))
      && Occurs(f.description, p, SlotAt(t, f, variation, 2))
      && Occurs(t.PresenceSentence(f.includePeople), p, SlotAt(t, f, variation, 3))
      && Occurs(AspectRatioText(f.aspectRatio), p, SlotAt(t, f, variation, 4))
  {
    SixSlotTemplate(t.Literals(), PromptValues(t, f, variation));
  }

  /** "variação #" and the decimal variation number stand at the last slot,
      and only the closing piece follows the number. */
  lemma PromptVariationSlot(t: PromptTemplate, f: PromptFields, variation: nat)
    ensures var p, at := Prompt(t, f, variation), SlotAt(t, f, variation, 5);
      && Occurs(VariationMarker + NumberToString(variation), p, at - |VariationMarker|)
      && p[at..] == NumberToString(variation) + t.closing
  {
    var L, V := t.Literals(), PromptValues(t, f, variation);
    SlotHolds(L, V, 5);
    assert L[6..] == [t.closing] && V[6..] == [];
    MarkerBeforeSlot(L, V, 5, t.styleAndRules, VariationMarker);
  }

  /** The human-presence slot holds the "include people" sentence exactly when
      the toggle is on, and the "no people" sentence exactly when it is off. */
  lemma PresenceSlot(t: PromptTemplate, f: PromptFields, variation: nat)
    requires t.PresenceSentencesDiffer()
    ensures Occurs(t.withPeople, Prompt(t, f, variation), SlotAt(t, f, variation, 3))
        <==> f.includePeople
    ensures Occurs(t.withoutPeople, Prompt(t, f, variation), SlotAt(t, f, variation, 3))
        <==> !f.includePeople
  {
    var L, V := t.Literals(), PromptValues(t, f, variation);
    var p, at := Render(L, V), SlotOffset(L, V, 3);
    SlotHolds(L, V, 3);
    if f.includePeople {
      OccursExcludes(t.withPeople, t.withoutPeople, p, at);
    } else {
      OccursExcludes(t.withoutPeople, t.withPeople, p, at);
    }
  }

  /** `createPrompt`'s human-presence slot holds "Inclua uma ou mais
      pessoas ..." exactly when people are to be included, and "Não inclua
      pessoas ..." exactly when they are not. */
  lemma CreatePromptPresence(f: PromptFields, variation: nat)
    ensures var p, at := CreatePrompt(f, variation), SlotAt(SourceTemplate, f, variation, 3);
      && (Occurs(SourceTemplate.withPeople, p, at) <==> f.includePeople)
      && (Occurs(SourceTemplate.withoutPeople, p, at) <==> !f.includePeople)
  {
    SourcePresenceSentencesDiffer();
    PresenceSlot(SourceTemplate, f, variation);
  }

  /** The variation number is the last value, so no slot offset depends on it. */
  lemma SlotsBeforeVariation(t: PromptTemplate, f: PromptFields, v1: nat, v2: nat)
    ensures forall i :: 0 <= i < 6 ==> SlotAt(t, f, v1, i) == SlotAt(t, f, v2, i)
  {
    var V1, V2 := PromptValues(t, f, v1), PromptValues(t, f, v2);
    forall i | 0 <= i < 6
      ensures SlotOffset(t.Literals(), V1, i) == SlotOffset(t.Literals(), V2, i)
    {
      BeforeIgnoresLaterValues(t.Literals(), V1, V2, i);
    }
  }

  /** Different variation numbers give different prompts for the same request;
      in particular variations 1 and 2 are never the same text. */
  lemma PromptsOfDistinctVariationsDiffer(t: PromptTemplate, f: PromptFields, v1: nat, v2: nat)
    requires v1 != v2
    ensures Prompt(t, f, v1) != Prompt(t, f, v2)
  {
    var p1, p2 := Prompt(t, f, v1), Prompt(t, f, v2);
    var n1, n2 := NumberToString(v1), NumberToString(v2);
    var at := SlotAt(t, f, v1, 5);
    PromptVariationSlot(t, f, v1);
    PromptVariationSlot(t, f, v2);
    SlotsBeforeVariation(t, f, v1, v2);
    NumberToStringInjective(v1, v2);
    assert p1[at..] == n1 + t.closing && p2[at..] == n2 + t.closing;
    if |n1| == |n2| {
      assert p1[at..][..|n1|] == n1 && p2[at..][..|n2|] == n2;
    } else {
      assert |p1| != |p2|;
    }
  }

  /** The reference image plays no part in the prompt. */
  lemma PromptIgnoresReferenceImage(r: AdCreativeRequest, other: ImageFile, variation: nat)
    ensures CreatePrompt(FieldsOf(r.(referenceImage := other)), variation)
         == CreatePrompt(FieldsOf(r), variation)
  {
  }

  // ---------------------------------------------------------------------
  // The generation request sent to the model
  // ---------------------------------------------------------------------

  const ModelName: string := "gemini-2.5-flash-image-preview"

  datatype Modality = Image | Text

  datatype RequestPart = InlinePart(image: GenerativePart) | TextPart(text: string)

  /** One `generateContent` call: a single content made of the image part and
      the prompt, asking for image and text output. */
  datatype GenerateContentRequest = GenerateContentRequest(
    model: string,
    parts: seq<RequestPart>,
    responseModalities: seq<Modality>)

  function BuildRequest(r: AdCreativeRequest, variation: nat): GenerateContentRequest
  {
    GenerateContentRequest(
      ModelName,
      [InlinePart(FileToGenerativePart(r.referenceImage)), TextPart(CreatePrompt(FieldsOf(r), variation))],
      [Image, Text])
  }

  /** The two calls of one submission carry the same image part and differ in
      their prompt text. */
  lemma VariationRequestsDiffer(r: AdCreativeRequest)
    ensures BuildRequest(r, 1).parts[0] == BuildRequest(r, 2).parts[0]
    ensures BuildRequest(r, 1).parts[1] != BuildRequest(r, 2).parts[1]
  {
    PromptsOfDistinctVariationsDiffer(SourceTemplate, FieldsOf(r), 1, 2);
  }

  // ---------------------------------------------------------------------
  // The response and the image taken out of it
  // ---------------------------------------------------------------------

  datatype InlineData = InlineData(data: string, mimeType: string)

  /** A response part: it may carry inline data, text, both or neither. */
  datatype Part = Part(inlineData: Option<InlineData>, text: Option<string>)
  datatype Content = Content(parts: Option<seq<Part>>)
  datatype Candidate = Candidate(content: Option<Content>)
  datatype Response = Response(candidates: Option<seq<Candidate>>)

  /** `response.candidates?.[0]?.content?.parts`. */
  function FirstCandidateParts(resp: Response): (parts: Option<seq<Part>>)
    ensures resp.candidates.None? || resp.candidates.value == [] ==> parts.None?
    ensures parts.Some? ==>
      resp.candidates.Some? && |resp.candidates.value| > 0
      && resp.candidates.value[0].content == Some(Content(parts))
  {
    match resp.candidates
    case None => None
    case Some(cs) =>
      if |cs| == 0 then None
      else match cs[0].content
        case None => None
        case Some(c) => c.parts
  }

  /** Part `k` is the first part that carries inline data. */
  predicate IsFirstInline(parts: seq<Part>, k: int)
  {
    && 0 <= k < |parts|
    && parts[k].inlineData.Some?
    && forall j :: 0 <= j < k ==> parts[j].inlineData.None?
  }

  /** The data of the first part that carries inline data, if any. */
  function FirstInlineData(parts: seq<Part>): (r: Option<string>)
    ensures r.None? <==> forall k :: 0 <= k < |parts| ==> parts[k].inlineData.None?
    ensures r.Some? ==> exists k :: IsFirstInline(parts, k) && parts[k].inlineData.value.data == r.value
    decreases |parts|
  {
    if |parts| == 0 then None
    else if parts[0].inlineData.Some? then Some(parts[0].inlineData.value.data)
    else
      var r := FirstInlineData(parts[1..]);
      assert forall k :: 1 <= k < |parts| ==> parts[k] == parts[1..][k - 1];
      assert r.Some? ==> exists k :: IsFirstInline(parts, k) && parts[k].inlineData.value.data == r.value by {
        if r.Some? {
          var k :| IsFirstInline(parts[1..], k) && parts[1..][k].inlineData.value.data == r.value;
          assert IsFirstInline(parts, k + 1);
        }
      }
      r
  }

  /** Parts after the first image are ignored, and parts before it without
      inline data are skipped. */
  lemma {:induction false} FirstInlineDataOfConcat(before: seq<Part>, after: seq<Part>)
    ensures FirstInlineData(before).Some? ==> FirstInlineData(before + after) == FirstInlineData(before)
    ensures FirstInlineData(before).None? ==> FirstInlineData(before + after) == FirstInlineData(after)
    decreases |before|
  {
    if |before| > 0 {
      assert (before + after)[0] == before[0];
      assert (before + after)[1..] == before[1..] + after;
      FirstInlineDataOfConcat(before[1..], after);
    } else {
      assert before + after == after;
    }
  }

  /** What the part search of `generateSingleImage` yields for a response:
      the data of the first candidate's first inline part, or the no-image
      error. */
  function ExtractImage(resp: Response): (r: Result<string, ServiceError>)
    ensures r.Failure? ==> r.error == NoImageReturned && r.error.Message() == NoImageMessage
    ensures r.Success? <==>
      FirstCandidateParts(resp).Some?
      && exists k :: 0 <= k < |FirstCandidateParts(resp).value|
                     && FirstCandidateParts(resp).value[k].inlineData.Some?
    ensures r.Success? ==>
      exists k :: IsFirstInline(FirstCandidateParts(resp).value, k)
                  && FirstCandidateParts(resp).value[k].inlineData.value.data == r.value
  {
    match FirstCandidateParts(resp)
    case None => Failure(NoImageReturned)
    case Some(parts) =>
      match FirstInlineData(parts)
      case Some(d) => Success(d)
      case None => Failure(NoImageReturned)
  }

  /** Only the first candidate is looked at. */
  lemma ExtractImageUsesFirstCandidateOnly(first: Candidate, others: seq<Candidate>)
    ensures ExtractImage(Response(Some([first] + others))) == ExtractImage(Response(Some([first])))
  {
    assert ([first] + others)[0] == first;
  }

  /** One generation: send the request for this variation, then search the
      first candidate's parts in order for inline data. */
  function SingleImage(service: GenerateContentRequest -> Result<Response, string>,
                       r: AdCreativeRequest, variation: nat): (image: Result<string, ServiceError>)
    ensures image.Failure? && image.error.Transport? <==> service(BuildRequest(r, variation)).Failure?
    ensures service(BuildRequest(r, variation)).Failure? ==>
      image == Failure(Transport(service(BuildRequest(r, variation)).error))
    ensures image.Success? ==> service(BuildRequest(r, variation)).Success?
  {
    match service(BuildRequest(r, variation))
    case Failure(reason) => Failure(Transport(reason))
    case Success(resp) => ExtractImage(resp)
  }

  /** `generateSingleImage`, with its `for ... of` search over the parts. */
  method GenerateSingleImage(service: GenerateContentRequest -> Result<Response, string>,
                             r: AdCreativeRequest, variation: nat)
    returns (image: Result<string, ServiceError>)
    ensures image == SingleImage(service, r, variation)
    ensures image.Failure? && image.error.NoImageReturned? ==>
      service(BuildRequest(r, variation)).Success?
  {
    var request := BuildRequest(r, variation);
    var reply := service(request);
    if reply.Failure? {
      return Failure(Transport(reply.error));
    }
    var parts := FirstCandidateParts(reply.value);
    if parts.Some? {
      var ps := parts.value;
      var i := 0;
      while i < |ps|
        invariant 0 <= i <= |ps|
        invariant forall j :: 0 <= j < i ==> ps[j].inlineData.None?
      {
        if ps[i].inlineData.Some? {
          assert IsFirstInline(ps, i);
          assert FirstInlineData(ps) == Some(ps[i].inlineData.value.data) by {
            assert ps == ps[..i] + ps[i..];
            FirstInlineDataOfConcat(ps[..i], ps[i..]);
          }
          return Success(ps[i].inlineData.value.data);
        }
        i := i + 1;
      }
    }
    return Failure(NoImageReturned);
  }

  // ---------------------------------------------------------------------
  // Both variations (generateAdImages)
  // ---------------------------------------------------------------------

  /** Variations 1 and 2, in that order, or the failure of either; never a
      partial result. */
  function GenerateAdImages(service: GenerateContentRequest -> Result<Response, string>,
                            r: AdCreativeRequest): (images: Result<seq<string>, ServiceError>)
    ensures images.Success? <==>
      SingleImage(service, r, 1).Success? && SingleImage(service, r, 2).Success?
    ensures images.Success? ==>
      images.value == [SingleImage(service, r, 1).value, SingleImage(service, r, 2).value]
    ensures images.Failure? ==>
      images.error == (if SingleImage(service, r, 1).Failure? then SingleImage(service, r, 1).error
                       else SingleImage(service, r, 2).error)
  {
    match SingleImage(service, r, 1)
    case Failure(e) => Failure(e)
    case Success(image1) =>
      match SingleImage(service, r, 2)
      case Failure(e) => Failure(e)
      case Success(image2) => Success([image1, image2])
  }
}
