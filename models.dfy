/**
 * The stored records of backend/generator/models.py: a palette with its processing state,
 * the file types, and a palette file whose path is derived from its palette when it is
 * saved without one. Paths are POSIX paths.
 */
module Models {
  import opened Wrappers
  import opened Text
  import opened Paths

  /** A stored palette; `storagePath` and `errorMessage` are nullable columns. */
  class Palette {
    const id: int
    const name: string
    const primary: string
    const secondary: Option<string>
    const tertiary: Option<string>
    var isProcessing: bool
    var errorMessage: Option<string>
    var storagePath: Option<string>

    constructor (id: int, name: string, primary: string, secondary: Option<string>,
                 tertiary: Option<string>, isProcessing: bool)
      ensures this.id == id && this.name == name && this.primary == primary
      ensures this.secondary == secondary && this.tertiary == tertiary
      ensures this.isProcessing == isProcessing
      ensures errorMessage.None? && storagePath.None?
    {
      this.id := id;
      this.name := name;
      this.primary := primary;
      this.secondary := secondary;
      this.tertiary := tertiary;
      this.isProcessing := isProcessing;
      errorMessage := None;
      storagePath := None;
    }
  }

  /** A file type; its extension is stored without the dot and may be null. */
  datatype PaletteFileType = PaletteFileType(name: string, description: string, fileExtension: Option<string>)

  /** An extension as an f-string renders it: a null extension reads "None". */
  function ExtensionText(ext: Option<string>): (r: string)
    ensures ext.Some? ==> r == ext.value
    ensures ext.None? ==> r == "None"
  {
    ext.GetOr("None")
  }

  /** The file name of a palette's file: `<palette name>-color-palette.<ext>`. */
  function PaletteFileName(paletteName: string, ext: Option<string>): (r: string)
    ensures StartsWith(r, paletteName) && EndsWith(r, "." + ExtensionText(ext))
  {
    var r := paletteName + "-color-palette." + ExtensionText(ext);
    assert r[..|paletteName|] == paletteName;
    assert r[|r| - |"." + ExtensionText(ext)|..] == "." + ExtensionText(ext);
    r
  }

  /** A palette file, relative to MEDIA_ROOT; an empty `filePath` means none is stored yet. */
  class PaletteFile {
    const palette: Palette
    const fileType: PaletteFileType
    const fileName: string
    var filePath: string

    constructor (palette: Palette, fileType: PaletteFileType, fileName: string, filePath: string)
      ensures this.palette == palette && this.fileType == fileType
      ensures this.fileName == fileName && this.filePath == filePath
    {
      this.palette := palette;
      this.fileType := fileType;
      this.fileName := fileName;
      this.filePath := filePath;
    }

    /**
     * `save`: a file saved without a path gets the palette's storage path joined with
     * the palette file name, when the palette has a non-empty storage path. A non-empty
     * path is never overwritten.
     */
    method Save()
      modifies this
      ensures old(filePath) != "" ==> filePath == old(filePath)
      ensures old(filePath) == "" && Truthy(palette.storagePath) ==>
        filePath == PathJoin(palette.storagePath.value, PaletteFileName(palette.name, fileType.fileExtension))
      ensures old(filePath) == "" && !Truthy(palette.storagePath) ==> filePath == ""
      ensures old(filePath) == "" && Truthy(palette.storagePath) ==>
        EndsWith(filePath, PaletteFileName(palette.name, fileType.fileExtension))
    {
      if filePath == "" && palette.storagePath.Some? && palette.storagePath.value != "" {
        filePath := PathJoin(palette.storagePath.value, PaletteFileName(palette.name, fileType.fileExtension));
      }
    }

    /**
     * `url`: none without a stored path; otherwise MEDIA_URL joined with the path, its
     * backslashes turned into slashes.
     */
    function Url(mediaUrl: string): (r: Option<string>)
      reads this
      ensures r.None? <==> filePath == ""
      ensures r.Some? ==> r.value == PathJoin(mediaUrl, ReplaceChar(filePath, '\\', '/'))
      ensures r.Some? ==> EndsWith(r.value, ReplaceChar(filePath, '\\', '/'))
      ensures r.Some? ==> '\\' !in ReplaceChar(filePath, '\\', '/')
    {
      if filePath == "" then None else Some(PathJoin(mediaUrl, ReplaceChar(filePath, '\\', '/')))
    }

    /** `full_path`: none without a stored path; otherwise MEDIA_ROOT joined with the path. */
    function FullPath(mediaRoot: string): (r: Option<string>)
      reads this
      ensures r.None? <==> filePath == ""
      ensures r.Some? ==> EndsWith(r.value, filePath)
      ensures r.Some? && !StartsWith(filePath, "/") ==> StartsWith(r.value, mediaRoot)
      ensures r.Some? && StartsWith(filePath, "/") ==> r.value == filePath
    {
      if filePath == "" then None else Some(PathJoin(mediaRoot, filePath))
    }
  }
}
