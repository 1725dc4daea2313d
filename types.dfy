/** The records and enumerations of types.ts that the core uses. */
module Types {

  /** A crop rectangle in natural-image pixels (`Crop`). */
  datatype Crop = Crop(x: real, y: real, width: real, height: real)

  predicate NonNegativeSize(c: Crop)
  {
    c.width >= 0.0 && c.height >= 0.0
  }

  /** One requested output size of an icon profile (`IconDefinition`). */
  datatype IconDefinition = IconDefinition(width: int, height: int, filename: string)

  /** The four top-level modes (`AppMode`). */
  datatype AppMode = Generator | Converter | QrGenerator | Editor

  /** A file as the core sees it: its name and its MIME type. */
  datatype FileInfo = FileInfo(name: string, mimeType: string)

  /** The editor tools (`EditorTool`). */
  datatype EditorTool =
    | Select | Pan | Pen | Eraser | CropTool | Undo | FlipHorizontal | FlipVertical
    | Arrow | RectTool | Circle | Text | Sign | StampR | AddImage | Line
}
