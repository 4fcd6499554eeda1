/**
  * The upload classifier and materializer (`process_uploaded_file`): the declared MIME type
  * and the file-name suffix pick one of three branches, and the branch turns the bytes into an
  * opened image, a UTF-8 decoded string, or nothing.
  */
module Upload {
  import opened Options
  import opened PyStr

  newtype Byte = b: int | 0 <= b < 256

  /** An image opened by the imaging library; only its identity matters to the app. */
  datatype Image = Image(handle: nat)

  /** What a saved upload becomes. */
  datatype Content = ImageContent(image: Image) | TextContent(text: string)

  /** An uploaded file as the upload widget hands it over. */
  datatype UploadedFile = UploadedFile(name: string, mimeType: string, bytes: seq<Byte>)

  /**
    * The two library decoders, left uninterpreted: opening the bytes as an image and decoding
    * them as UTF-8. `None` stands for the exception either of them may raise.
    */
  datatype Decoders = Decoders(openImage: seq<Byte> -> Option<Image>, decodeUtf8: seq<Byte> -> Option<string>)

  /** The branch `process_uploaded_file` takes. */
  datatype Branch = ImageBranch | TextBranch | Unsupported

  /** The name suffixes that send a file down the text branch whatever its MIME type. */
  const TextSuffixes: seq<string> := [".md", ".csv", ".doc", ".docx", ".pdf"]

  const ImageErrorMessage: string := "Error al procesar la imagen. Asegúrese de que el formato es válido."
  const TextErrorMessage: string := "Error al leer el archivo de texto."
  const UnsupportedPrefix: string := "Tipo de archivo no soportado: "

  /** Python truthiness of a stored upload: an image is always true, text only when non-empty. */
  predicate IsTruthy(data: Option<Content>) {
    match data
    case None => false
    case Some(ImageContent(_)) => true
    case Some(TextContent(t)) => t != ""
  }

  /** A name ends with one of the text suffixes exactly when it ends with one of the five listed. */
  lemma TextSuffixesListed(name: string)
    ensures EndsWithAny(name, TextSuffixes) <==>
      EndsWith(name, ".md") || EndsWith(name, ".csv") || EndsWith(name, ".doc") ||
      EndsWith(name, ".docx") || EndsWith(name, ".pdf")
  {
    assert TextSuffixes[0] == ".md" && TextSuffixes[1] == ".csv" && TextSuffixes[2] == ".doc";
    assert TextSuffixes[3] == ".docx" && TextSuffixes[4] == ".pdf";
  }

  /** Which branch a file with this MIME type and name takes; the image test comes first. */
  function Classify(mimeType: string, name: string): (b: Branch)
    ensures b == ImageBranch <==> StartsWith(mimeType, "image")
    ensures b == TextBranch <==>
      !StartsWith(mimeType, "image") &&
      (StartsWith(mimeType, "text") || mimeType == "application/json" ||
       EndsWith(name, ".md") || EndsWith(name, ".csv") || EndsWith(name, ".doc") ||
       EndsWith(name, ".docx") || EndsWith(name, ".pdf"))
  {
    TextSuffixesListed(name);
    if StartsWith(mimeType, "image") then ImageBranch
    else if StartsWith(mimeType, "text") || mimeType == "application/json" || EndsWithAny(name, TextSuffixes) then TextBranch
    else Unsupported
  }

  /** The outcome of processing: the value stored in the session, and the error shown, if any. */
  datatype Processed = Processed(data: Option<Content>, error: Option<string>)

  /**
    * `process_uploaded_file`: no file gives nothing and no error; otherwise the stored value is
    * missing exactly when an error message was shown.
    */
  function ProcessUploadedFile(file: Option<UploadedFile>, decoders: Decoders): (r: Processed)
    ensures file.None? ==> r == Processed(None, None)
    ensures file.Some? ==> (r.data.None? <==> r.error.Some?)
    ensures r.data.Some? && r.data.value.ImageContent? ==> StartsWith(file.value.mimeType, "image")
    ensures r.data.Some? && r.data.value.TextContent? ==> Classify(file.value.mimeType, file.value.name) == TextBranch
  {
    match file
    case None => Processed(None, None)
    case Some(f) =>
      match Classify(f.mimeType, f.name)
      case ImageBranch =>
        (match decoders.openImage(f.bytes)
         case Some(img) => Processed(Some(ImageContent(img)), None)
         case None => Processed(None, Some(ImageErrorMessage)))
      case TextBranch =>
        (match decoders.decodeUtf8(f.bytes)
         case Some(text) => Processed(Some(TextContent(text)), None)
         case None => Processed(None, Some(TextErrorMessage)))
      case Unsupported => Processed(None, Some(UnsupportedPrefix + f.mimeType))
  }

  /**
    * An "image" MIME type takes the image branch whatever the file is called: the result is the
    * opened image, or nothing with the image error when opening fails.
    */
  lemma ImageTakesPrecedence(f: UploadedFile, decoders: Decoders, otherName: string)
    requires StartsWith(f.mimeType, "image")
    ensures var r := ProcessUploadedFile(Some(f), decoders);
      r == ProcessUploadedFile(Some(f.(name := otherName)), decoders) &&
      (decoders.openImage(f.bytes).Some? ==> r == Processed(Some(ImageContent(decoders.openImage(f.bytes).value)), None)) &&
      (decoders.openImage(f.bytes).None? ==> r == Processed(None, Some(ImageErrorMessage)))
  {
    assert Classify(f.mimeType, f.name) == ImageBranch;
    assert Classify(f.mimeType, otherName) == ImageBranch;
  }

  /**
    * On the text branch the stored value is exactly the UTF-8 decoding of the bytes, and a
    * decoding failure stores nothing and shows the text error.
    */
  lemma TextBranchIsUtf8Decoding(f: UploadedFile, decoders: Decoders)
    requires Classify(f.mimeType, f.name) == TextBranch
    ensures var r := ProcessUploadedFile(Some(f), decoders);
      (r.data.Some? <==> decoders.decodeUtf8(f.bytes).Some?) &&
      (r.data.Some? ==> r.data.value == TextContent(decoders.decodeUtf8(f.bytes).value)) &&
      (r.data.None? ==> r.error == Some(TextErrorMessage))
  {
  }

  /**
    * A document suffix (".doc", ".docx", ".pdf") with a MIME type that is not an image is read as
    * UTF-8 text: there is no other branch for office files.
    */
  lemma DocumentsAreDecodedAsText(f: UploadedFile, decoders: Decoders)
    requires !StartsWith(f.mimeType, "image")
    requires EndsWith(f.name, ".doc") || EndsWith(f.name, ".docx") || EndsWith(f.name, ".pdf")
    ensures ProcessUploadedFile(Some(f), decoders).data ==
      (match decoders.decodeUtf8(f.bytes)
       case Some(text) => Some(TextContent(text))
       case None => None)
  {
    assert Classify(f.mimeType, f.name) == TextBranch;
  }

  /** A file matching neither branch stores nothing and shows an error naming its MIME type. */
  lemma UnsupportedYieldsNothing(f: UploadedFile, decoders: Decoders)
    requires !StartsWith(f.mimeType, "image") && !StartsWith(f.mimeType, "text")
    requires f.mimeType != "application/json"
    requires !EndsWithAny(f.name, TextSuffixes)
    ensures ProcessUploadedFile(Some(f), decoders) == Processed(None, Some(UnsupportedPrefix + f.mimeType))
  {
  }
}
