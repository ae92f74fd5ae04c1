/** `MultipartHelper`: folding the sections of a multipart/form-data body into text fields and
    files, and the content-type whitelists. The multipart reader itself is represented by the
    sequence of sections it yields. */
module Multipart {
  import opened Wrappers
  import opened Seqs
  import Text

  /** A parsed `Content-Disposition` header: its type and its `name`, `filename` and `filename*`
      parameters (None when the parameter is absent). */
  datatype Disposition = Disposition(dispositionType: string, name: Option<string>,
                                     fileName: Option<string>, fileNameStar: Option<string>)

  /** A section as the reader yields it: its Content-Disposition if that header parses, and its body. */
  datatype Section = Section(disposition: Option<Disposition>, body: string)

  /** `MultipartFile`: the file's name and its bytes. */
  datatype MultipartFile = MultipartFile(fileName: string, data: string)

  /** `MultipartFormData` */
  datatype FormData = FormData(text: map<string, string>, files: seq<MultipartFile>)

  const MissingBoundary: string := "Missing content-type boundary."

  /** `IsFileDisposition()`: a form-data part with a non-empty file name of either kind. */
  predicate IsFileDisposition(d: Disposition) {
    d.dispositionType == "form-data" && (!Text.IsNullOrEmpty(d.fileName) || !Text.IsNullOrEmpty(d.fileNameStar))
  }

  /** `IsFormDisposition()`: a form-data part with no file name at all. */
  predicate IsFormDisposition(d: Disposition) {
    d.dispositionType == "form-data" && Text.IsNullOrEmpty(d.fileName) && Text.IsNullOrEmpty(d.fileNameStar)
  }

  lemma FileAndFormExclusive(d: Disposition)
    ensures !(IsFileDisposition(d) && IsFormDisposition(d))
    ensures d.dispositionType == "form-data" ==> IsFileDisposition(d) || IsFormDisposition(d)
  {
  }

  predicate IsFileSection(s: Section) {
    s.disposition.Some? && IsFileDisposition(s.disposition.value)
  }

  /** A form section that has a name, so it is stored. */
  predicate IsNamedFieldSection(s: Section) {
    s.disposition.Some? && IsFormDisposition(s.disposition.value) && s.disposition.value.name.Some?
  }

  /** The file name a file section records: `FileName.Value ?? FileNameStar.Value`. */
  function FileNameOf(d: Disposition): string {
    match d.fileName
    case Some(f) => f
    case None => d.fileNameStar.GetOr("")
  }

  function FileOf(s: Section): MultipartFile
    requires IsFileSection(s)
  {
    MultipartFile(FileNameOf(s.disposition.value), s.body)
  }

  /** The key of a form field: its name with every surrounding '"' trimmed. */
  function FieldKey(s: Section): string
    requires IsNamedFieldSection(s)
  {
    Text.TrimChar(s.disposition.value.name.value, '"')
  }

  /** `HeaderUtilities.RemoveQuotes`: one pair of enclosing double quotes is dropped. */
  function RemoveQuotes(s: string): (r: string)
    ensures |r| <= |s|
    ensures '"' !in s ==> r == s
  {
    if |s| >= 2 && s[0] == '"' && s[|s| - 1] == '"' then s[1..|s| - 1] else s
  }

  /** The files of the first sections, folded in stream order. */
  function FilesOf(sections: seq<Section>): seq<MultipartFile> {
    if sections == [] then []
    else
      var last := sections[|sections| - 1];
      FilesOf(sections[..|sections| - 1]) + (if IsFileSection(last) then [FileOf(last)] else [])
  }

  /** The text fields of the first sections, folded in stream order. */
  function TextOf(sections: seq<Section>): map<string, string> {
    if sections == [] then map[]
    else
      var last := sections[|sections| - 1];
      var m := TextOf(sections[..|sections| - 1]);
      if IsNamedFieldSection(last) then m[FieldKey(last) := last.body] else m
  }

  /** `ParseAsync(body, contentType)`; `boundary` is the boundary parameter of the content type,
      given by the caller, and `sections` are what the reader yields, always well formed. */
  method Parse(boundary: Option<string>, sections: seq<Section>) returns (r: Result<FormData, string>)
    ensures r.Failure? <==> boundary.None? || RemoveQuotes(boundary.value) == ""
    ensures r.Failure? ==> r.error == MissingBoundary
    ensures r.Success? ==> r.value == FormData(TextOf(sections), FilesOf(sections))
  {
    if boundary.None? || RemoveQuotes(boundary.value) == "" {
      return Failure(MissingBoundary);
    }
    var text: map<string, string> := map[];
    var files: seq<MultipartFile> := [];
    var i := 0;
    while i < |sections|
      invariant 0 <= i <= |sections|
      invariant text == TextOf(sections[..i]) && files == FilesOf(sections[..i])
    {
      var section := sections[i];
      assert sections[..i + 1][..i] == sections[..i];
      if section.disposition.Some? {
        var d := section.disposition.value;
        if IsFileDisposition(d) {
          files := files + [MultipartFile(FileNameOf(d), section.body)];
        } else if IsFormDisposition(d) {
          if d.name.Some? {
            var key := Text.TrimChar(d.name.value, '"');
            text := text[key := section.body];
          }
        }
      }
      i := i + 1;
    }
    assert sections[..i] == sections;
    return Success(FormData(text, files));
  }

  /** The files are exactly the file sections, in stream order. */
  lemma {:induction false} FilesAreFileSections(sections: seq<Section>)
    ensures var kept := Filter(IsFileSection, sections);
      |FilesOf(sections)| == |kept| && forall i | 0 <= i < |kept| :: FilesOf(sections)[i] == FileOf(kept[i])
  {
    if sections != [] {
      var init, last := sections[..|sections| - 1], sections[|sections| - 1];
      FilesAreFileSections(init);
      assert sections == init + [last];
      FilterAppend(IsFileSection, init, [last]);
      assert [last][1..] == [];
    }
  }

  /** Sections without a parsable Content-Disposition, and form sections without a name, add nothing. */
  lemma SkippedSections(sections: seq<Section>, s: Section)
    requires s.disposition.None? || (IsFormDisposition(s.disposition.value) && s.disposition.value.name.None?)
    ensures FilesOf(sections + [s]) == FilesOf(sections)
    ensures TextOf(sections + [s]) == TextOf(sections)
  {
    assert (sections + [s])[..|sections|] == sections;
  }

  /** A key is present exactly when some named form field has it, and then it holds the body of
      the last such field: later fields overwrite earlier ones. */
  lemma {:induction false} LastFieldWins(sections: seq<Section>, key: string)
    ensures key in TextOf(sections) <==>
      exists i | 0 <= i < |sections| :: IsNamedFieldSection(sections[i]) && FieldKey(sections[i]) == key
    ensures forall i | 0 <= i < |sections| && IsNamedFieldSection(sections[i]) && FieldKey(sections[i]) == key ::
      (forall j | i < j < |sections| :: !(IsNamedFieldSection(sections[j]) && FieldKey(sections[j]) == key))
      ==> TextOf(sections)[key] == sections[i].body
  {
    if sections != [] {
      var n := |sections| - 1;
      var init := sections[..n];
      LastFieldWins(init, key);
      forall i | 0 <= i < n ensures init[i] == sections[i] { }
      if IsNamedFieldSection(sections[n]) && FieldKey(sections[n]) == key {
        assert key in TextOf(sections);
      }
    }
  }

  // ---------------------------------------------------------------------------
  // Content-type whitelists

  const SupportedImageTypes: seq<string> := ["image/jpeg", "image/png", "image/gif"]
  const SupportedDocumentTypes: seq<string> := ["application/pdf", "image/jpeg", "image/png"]

  /** `IsSupportedImage(file)` on the file's content type. */
  predicate IsSupportedImage(contentType: string) {
    Text.ToLower(contentType) in SupportedImageTypes
  }

  /** `IsSupportedDocument(file)` on the file's content type. */
  predicate IsSupportedDocument(contentType: string) {
    Text.ToLower(contentType) in SupportedDocumentTypes
  }

  lemma SupportedTypesAreLowerCase()
    ensures forall w | w in SupportedImageTypes + SupportedDocumentTypes :: Text.IsLowerCase(w)
  {
  }

  /** Exactly the three image types are accepted, in any letter case. */
  lemma SupportedImageExactly(contentType: string)
    ensures IsSupportedImage(contentType) <==>
      Text.MatchesIgnoringCase(contentType, "image/jpeg")
      || Text.MatchesIgnoringCase(contentType, "image/png")
      || Text.MatchesIgnoringCase(contentType, "image/gif")
  {
    Text.ToLowerMatches(contentType, "image/jpeg");
    Text.ToLowerMatches(contentType, "image/png");
    Text.ToLowerMatches(contentType, "image/gif");
  }

  /** Exactly PDF, JPEG and PNG are accepted as documents, in any letter case; GIF is not. */
  lemma SupportedDocumentExactly(contentType: string)
    ensures IsSupportedDocument(contentType) <==>
      Text.MatchesIgnoringCase(contentType, "application/pdf")
      || Text.MatchesIgnoringCase(contentType, "image/jpeg")
      || Text.MatchesIgnoringCase(contentType, "image/png")
  {
    Text.ToLowerMatches(contentType, "application/pdf");
    Text.ToLowerMatches(contentType, "image/jpeg");
    Text.ToLowerMatches(contentType, "image/png");
  }

  /** GIF is an accepted image but not an accepted document. */
  lemma GifImageNotDocument()
    ensures IsSupportedImage("image/gif") && !IsSupportedDocument("image/gif")
  {
    SupportedImageExactly("image/gif");
    SupportedDocumentExactly("image/gif");
    assert "image/gif"[6] != "image/png"[6];
  }
}
