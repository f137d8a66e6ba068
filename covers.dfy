/** The content-addressed cover store `ensureCover`. A picture's bytes are named by their
    SHA-1 digest and an extension derived from the picture's MIME type; the file is written
    into the uploads directory only when no file of that name exists, and the public
    reference `/uploads/cover-<digest>.<ext>` is returned.

    The SHA-1 digest (FIPS 180-4, as lower-case hex) and `mime.extension` are library code
    the model does not define: they are parameters, bundled in `Hashing`, and every result
    here holds for whatever functions are passed. */
module Covers {
  import opened Common

  /** The library functions the store depends on. `extension` is `None` where
      `mime.extension` returns `false` (an unknown type). */
  datatype Hashing = Hashing(sha1: seq<byte> -> string, extension: string -> Option<string>)

  /** An embedded picture: `data` is `None` when the field is missing; `format` is its
      MIME type, "" when missing. */
  datatype Picture = Picture(data: Option<seq<byte>>, format: string)

  const DefaultMime := "image/jpeg"
  const DefaultExtension := "jpg"
  const FilePrefix := "cover-"
  const PublicDir := "/uploads/"

  /** `mime.extension(pic.format || 'image/jpeg') || 'jpg'`. */
  function CoverExtension(h: Hashing, format: string): string {
    Or(h.extension(Or(format, DefaultMime)).GetOr(""), DefaultExtension)
  }

  /** The file name `cover-<hash>.<ext>`. */
  function CoverFileName(h: Hashing, data: seq<byte>, format: string): string {
    FilePrefix + h.sha1(data) + "." + CoverExtension(h, format)
  }

  /** A picture that `ensureCover` stores: present, with its data field present. */
  predicate HasData(pic: Option<Picture>) {
    pic.Some? && pic.value.data.Some?
  }

  /** The reference `ensureCover` returns, which never depends on the directory. */
  function CoverRef(h: Hashing, pic: Option<Picture>): Option<string> {
    if HasData(pic) then Some(PublicDir + CoverFileName(h, pic.value.data.value, pic.value.format))
    else None
  }

  /** `ensureCover(pic)` on an uploads directory (file name to contents): the reference and
      the directory afterwards. The bytes are written only if the name is absent. */
  function StoreCover(h: Hashing, files: map<string, seq<byte>>, pic: Option<Picture>)
    : (map<string, seq<byte>>, Option<string>)
  {
    if !HasData(pic) then (files, None)
    else
      var name := CoverFileName(h, pic.value.data.value, pic.value.format);
      var files' := if name in files then files else files[name := pic.value.data.value];
      (files', CoverRef(h, pic))
  }

  /** The result is `null` exactly when the picture or its data is missing, and otherwise
      the public path of `cover-<sha1(data)>.<ext>`. */
  lemma CoverRefShape(h: Hashing, pic: Option<Picture>)
    ensures var r := StoreCover(h, map[], pic).1;
      && (r.None? <==> pic.None? || pic.value.data.None?)
      && (r.Some? ==> r.value == "/uploads/cover-" + h.sha1(pic.value.data.value) + "." +
                                 CoverExtension(h, pic.value.format))
  {
  }

  /** The extension falls back to `jpg` when the MIME library knows no extension, and a
      missing format is looked up as `image/jpeg`. */
  lemma ExtensionDefaults(h: Hashing, format: string)
    ensures CoverExtension(h, format) != ""
    ensures h.extension(Or(format, DefaultMime)).None? ==> CoverExtension(h, format) == "jpg"
    ensures CoverExtension(h, "") == CoverExtension(h, "image/jpeg")
  {
  }

  /** The reference depends only on the bytes and the format, never on the directory. */
  lemma RefIgnoresDirectory(h: Hashing, files1: map<string, seq<byte>>,
                            files2: map<string, seq<byte>>, pic: Option<Picture>)
    ensures StoreCover(h, files1, pic).1 == StoreCover(h, files2, pic).1
  {
  }

  /** Write-once: no existing file is ever changed, the only name that can appear is the
      picture's own, and it then holds the picture's bytes. */
  lemma StoreIsWriteOnce(h: Hashing, files: map<string, seq<byte>>, pic: Option<Picture>)
    ensures var files' := StoreCover(h, files, pic).0;
      && (forall n :: n in files ==> n in files' && files'[n] == files[n])
      && (!HasData(pic) ==> files' == files)
      && (HasData(pic) ==>
            var name := CoverFileName(h, pic.value.data.value, pic.value.format);
            && files'.Keys == files.Keys + {name}
            && (name !in files ==> files'[name] == pic.value.data.value))
  {
  }

  /** Only a missing data field yields `null`: an empty byte buffer is truthy, so empty
      picture data is stored and referenced like any other. */
  lemma EmptyDataIsStored(h: Hashing, files: map<string, seq<byte>>, format: string)
    ensures var pic := Some(Picture(Some([]), format));
      var name := CoverFileName(h, [], format);
      && StoreCover(h, files, pic).1 == Some("/uploads/" + name)
      && name in StoreCover(h, files, pic).0
  {
  }

  /** Idempotence: a second call with the same picture returns the same reference and
      leaves the directory as the first call left it. */
  lemma StoreIdempotent(h: Hashing, files: map<string, seq<byte>>, pic: Option<Picture>)
    ensures var (files1, ref1) := StoreCover(h, files, pic);
      StoreCover(h, files1, pic) == (files1, ref1)
  {
  }

  /** Two pictures with the same bytes and format, stored one after the other into a
      directory that held neither, share one reference and add exactly one file, holding
      those bytes. */
  lemma SameBytesShareOneFile(h: Hashing, files: map<string, seq<byte>>, a: Picture, b: Picture)
    requires a.data.Some? && a.data == b.data && a.format == b.format
    requires CoverFileName(h, a.data.value, a.format) !in files
    ensures var (files1, refA) := StoreCover(h, files, Some(a));
      var (files2, refB) := StoreCover(h, files1, Some(b));
      && refA == refB
      && files2.Keys == files.Keys + {CoverFileName(h, a.data.value, a.format)}
      && |files2.Keys| == |files.Keys| + 1
      && files2[CoverFileName(h, a.data.value, a.format)] == a.data.value
  {
  }

  /** The reference names its digest: when digests have a fixed length (40 hex digits for
      SHA-1), equal references mean equal digests, so pictures whose digests differ get
      different files. */
  lemma RefDeterminesDigest(h: Hashing, a: Picture, b: Picture, width: nat)
    requires a.data.Some? && b.data.Some?
    requires |h.sha1(a.data.value)| == width && |h.sha1(b.data.value)| == width
    requires CoverRef(h, Some(a)) == CoverRef(h, Some(b))
    ensures h.sha1(a.data.value) == h.sha1(b.data.value)
  {
    var ra, rb := CoverRef(h, Some(a)).value, CoverRef(h, Some(b)).value;
    var start := |PublicDir + FilePrefix|;
    assert ra[start..start + width] == h.sha1(a.data.value);
    assert rb[start..start + width] == h.sha1(b.data.value);
  }

  // ---------------------------------------------------------------------------

  /** The uploads directory, file name to contents. */
  class UploadsDir {
    var files: map<string, seq<byte>>

    constructor (files: map<string, seq<byte>>)
      ensures this.files == files
    {
      this.files := files;
    }

    /** `ensureCover(pic)`: check that the file exists, write it otherwise. */
    method EnsureCover(h: Hashing, pic: Option<Picture>) returns (ref: Option<string>)
      modifies this
      ensures (files, ref) == StoreCover(h, old(files), pic)
    {
      if pic.None? || pic.value.data.None? {
        return None;
      }
      var data := pic.value.data.value;
      var digest := h.sha1(data);
      var ext := Or(h.extension(Or(pic.value.format, DefaultMime)).GetOr(""), DefaultExtension);
      var fileName := FilePrefix + digest + "." + ext;
      if fileName !in files {
        files := files[fileName := data];
      }
      ref := Some(PublicDir + fileName);
    }
  }
}
