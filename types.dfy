/** The request data model of the ad generator: the aspect-ratio enumeration
    and the creative request that the form hands to the image service. */
module Types {

  /** The three output formats the form offers: '1:1', '16:9' and '9:16'. */
  datatype AspectRatio = Square | Landscape | Portrait

  /** The literal string value of the aspect-ratio union type. */
  function AspectRatioText(a: AspectRatio): (s: string)
    ensures |s| == 3 || |s| == 4
    ensures ':' in s
  {
    match a
    case Square => "1:1"
    case Landscape => "16:9"
    case Portrait => "9:16"
  }

  /** Distinct formats are written differently, so the prompt tells them apart. */
  lemma AspectRatioTextInjective(a: AspectRatio, b: AspectRatio)
    requires AspectRatioText(a) == AspectRatioText(b)
    ensures a == b
  {
  }

  /** A browser `File` as far as the core looks at it: its declared MIME type
      and the data URL that reading it with `readAsDataURL` yields. */
  datatype ImageFile = ImageFile(mimeType: string, dataUrl: string)

  /** One generation job, built fresh for every submission. */
  datatype AdCreativeRequest = AdCreativeRequest(
    referenceImage: ImageFile,
    keywords: string,
    targetAudience: string,
    description: string,
    includePeople: bool,
    aspectRatio: AspectRatio)
}
