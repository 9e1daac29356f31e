/** The value types the wizard's components share (types.ts). */
module Types {

  /** A value that may be absent: the source's `T | null` and optional parameters. */
  datatype Option<+T> = None | Some(value: T)

  /** The wizard's four screens; exactly one is active at a time. */
  datatype AppStep = Upload | Options | Loading | Results

  /** The three generation styles a user can pick. */
  datatype GenerationMode = Professional | Creative | Custom

  /** A successfully decoded upload: the data URL the file was read as, the
      MIME type the browser reported for the file, and the pixel size of the
      decoded image. */
  datatype UploadedImage = UploadedImage(dataUrl: string, mimeType: string, width: nat, height: nat)

  /** The arguments of one `onGenerate(mode, customPrompt?)` call made by the
      options screen. */
  datatype GenerateCall = GenerateCall(mode: GenerationMode, customPrompt: Option<string>)
}
