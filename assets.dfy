/**
 * Names of the asset files the admin and editor pages write: the image of a
 * product is `imagens/{codigo}.{ext}` with `jpeg` normalised to `jpg`, and its
 * manual is `pdfs/{codigo}.pdf`.
 */
module Assets {
  import opened Wrappers
  import opened Text

  datatype ImageFormat = Jpeg | Png

  /** `name.split(".")[-1].lower()`, then `jpeg` becomes `jpg`. */
  function Extension(fileName: string): (r: string)
    ensures r != "jpeg"
    ensures '.' !in r
    ensures Lower(LastSegment(fileName, '.')) == "jpeg" ==> r == "jpg"
    ensures Lower(LastSegment(fileName, '.')) != "jpeg" ==> r == Lower(LastSegment(fileName, '.'))
  {
    var last := LastSegment(fileName, '.');
    var ext := Lower(last);
    assert forall i :: 0 <= i < |ext| ==> ext[i] != '.' by {
      forall i | 0 <= i < |ext| ensures ext[i] != '.' {
        assert last[i] in last;
      }
    }
    if ext == "jpeg" then "jpg" else ext
  }

  /** `{"jpg": "JPEG", "png": "PNG"}.get(ext)`. */
  function FormatFor(ext: string): (r: Option<ImageFormat>)
    ensures r == Some(Jpeg) <==> ext == "jpg"
    ensures r == Some(Png) <==> ext == "png"
    ensures r.None? <==> ext != "jpg" && ext != "png"
  {
    if ext == "jpg" then Some(Jpeg) else if ext == "png" then Some(Png) else None
  }

  /** The admin page's save format: the map lookup with `"PNG"` as default. */
  function AdminSaveFormat(ext: string): (r: ImageFormat)
    ensures r == Jpeg <==> ext == "jpg"
  {
    FormatFor(ext).GetOr(Png)
  }

  /** `f"{codigo}.{ext}"`. */
  function ImageFileName(codigo: string, ext: string): string
  {
    codigo + "." + ext
  }

  /** `f"{IMAGENS_DIR}/{img_filename}"`, the path recorded as the product's `imagem`. */
  function ImagePath(codigo: string, ext: string): string
  {
    "imagens/" + ImageFileName(codigo, ext)
  }

  /** The path recorded as `imagem` reads back with the extension it was saved under. */
  lemma ImagePathExtension(codigo: string, ext: string)
    requires '.' !in ext
    ensures LastSegment(ImagePath(codigo, ext), '.') == ext
  {
    var dirCode := "imagens/" + codigo;
    calc {
      ImagePath(codigo, ext);
      "imagens/" + (codigo + ['.'] + ext);
      { assert "imagens/" + (codigo + ['.'] + ext) == ("imagens/" + codigo) + ['.'] + ext; }
      dirCode + ['.'] + ext;
    }
    LastSegmentAfterSeparator(dirCode, ext, '.');
  }

  /** `f"{codigo}.pdf"`, the manual's file name. */
  function ManualFileName(codigo: string): string
  {
    codigo + ".pdf"
  }

  /** The manual's file name reads back with the extension `pdf`, whatever the code. */
  lemma ManualFileNameExtension(codigo: string)
    ensures Extension(ManualFileName(codigo)) == "pdf"
  {
    LastSegmentAfterSeparator(codigo, "pdf", '.');
    assert ManualFileName(codigo) == codigo + ['.'] + "pdf";
    assert Lower("pdf") == "pdf";
  }

  /** Lower-casing a string a second time changes nothing. */
  lemma {:induction false} LowerIdempotent(s: string)
    ensures Lower(Lower(s)) == Lower(s)
    decreases |s|
  {
    if s != [] {
      LowerIdempotent(s[1..]);
      assert Lower(s)[1..] == Lower(s[1..]);
    }
  }

  /**
   * The image file name keeps the normalised extension: reading the
   * extension back from `{codigo}.{ext}` gives `ext` again, whatever the code.
   */
  lemma ExtensionOfImageFileName(codigo: string, uploaded: string)
    ensures Extension(ImageFileName(codigo, Extension(uploaded))) == Extension(uploaded)
  {
    var ext := Extension(uploaded);
    var last := LastSegment(uploaded, '.');
    LastSegmentAfterSeparator(codigo, ext, '.');
    assert codigo + "." + ext == codigo + ['.'] + ext;
    LowerIdempotent(last);
  }
}
