/**
  The image check used when a background file is picked (`isImageFile` in
  src/utils/index.ts): a file counts as an image by its MIME type alone.
 */
module ImageFiles {
  import Strings

  /** The parts of a browser `File` the check reads. */
  datatype File = File(name: string, mimeType: string)

  const ImagePrefix: string := "image/"

  /** `file.type.startsWith('image/')`: case-sensitive, and an empty type is not an image. */
  predicate IsImageFile(f: File) {
    Strings.StartsWith(f.mimeType, ImagePrefix)
  }

  /** A file is an image exactly when its type is `image/` followed by anything. */
  lemma IsImageFileIff(f: File)
    ensures IsImageFile(f) <==> exists rest: string :: f.mimeType == ImagePrefix + rest
  {
    if IsImageFile(f) {
      Strings.StartsWithSplit(f.mimeType, ImagePrefix);
    } else {
      forall rest: string ensures f.mimeType != ImagePrefix + rest {
        if f.mimeType == ImagePrefix + rest {
          Strings.StartsWithConcat(ImagePrefix, rest);
        }
      }
    }
  }

  lemma IsImageFileExamples()
    ensures IsImageFile(File("a.png", "image/png"))
    ensures IsImageFile(File("b", "image/"))
    ensures !IsImageFile(File("c", ""))
    ensures !IsImageFile(File("d.txt", "text/plain"))
    ensures !IsImageFile(File("e.PNG", "IMAGE/PNG"))
    ensures !IsImageFile(File("f", "image"))
  {
    assert "image/png"[..6] == ImagePrefix;
    assert "text/plain"[..6] != ImagePrefix by { assert "text/plain"[0] != ImagePrefix[0]; }
    assert "IMAGE/PNG"[..6] != ImagePrefix by { assert "IMAGE/PNG"[0] != ImagePrefix[0]; }
  }
}
