/** The extension table and the classification of a suffix into a category. */
module Categories {
  import opened Names

  /** A category folder name and the lower-case suffixes it accepts. */
  datatype Category = Category(name: Name, extensions: seq<string>)

  /** The fallback category, which matches nothing by itself. */
  const Others: Name := "Others"

  const ImagesSuffixes: seq<string> := [".jpg", ".jpeg", ".png", ".gif", ".bmp", ".svg", ".webp", ".ico", ".tiff"]
  const DocumentsSuffixes: seq<string> := [".pdf", ".doc", ".docx", ".txt", ".rtf", ".odt", ".pages"]
  const SpreadsheetsSuffixes: seq<string> := [".xls", ".xlsx", ".csv", ".ods", ".numbers"]
  const PresentationsSuffixes: seq<string> := [".ppt", ".pptx", ".odp", ".key"]
  const VideosSuffixes: seq<string> := [".mp4", ".avi", ".mkv", ".mov", ".wmv", ".flv", ".webm", ".m4v"]
  const AudioSuffixes: seq<string> := [".mp3", ".wav", ".flac", ".aac", ".ogg", ".wma", ".m4a"]
  const ArchivesSuffixes: seq<string> := [".zip", ".rar", ".7z", ".tar", ".gz", ".bz2", ".xz"]
  const ExecutablesSuffixes: seq<string> := [".exe", ".msi", ".dmg", ".pkg", ".deb", ".rpm", ".appimage"]
  const CodeSuffixes: seq<string> := [".py", ".js", ".html", ".css", ".java", ".cpp", ".c", ".php", ".rb", ".go"]
  const FontsSuffixes: seq<string> := [".ttf", ".otf", ".woff", ".woff2", ".eot"]
  const eBooksSuffixes: seq<string> := [".epub", ".mobi", ".azw", ".azw3", ".fb2"]
  const CADSuffixes: seq<string> := [".dwg", ".dxf", ".step", ".iges", ".stl"]
  const OthersSuffixes: seq<string> := []

  /** The fixed table, in the order the organizer iterates it. */
  const Table: seq<Category> := [
    Category("Images", ImagesSuffixes),
    Category("Documents", DocumentsSuffixes),
    Category("Spreadsheets", SpreadsheetsSuffixes),
    Category("Presentations", PresentationsSuffixes),
    Category("Videos", VideosSuffixes),
    Category("Audio", AudioSuffixes),
    Category("Archives", ArchivesSuffixes),
    Category("Executables", ExecutablesSuffixes),
    Category("Code", CodeSuffixes),
    Category("Fonts", FontsSuffixes),
    Category("eBooks", eBooksSuffixes),
    Category("CAD", CADSuffixes),
    Category("Others", OthersSuffixes)
  ]

  /** The keys of the table: the only folder names restore looks into. */
  function CategoryNames(): set<Name> {
    set i | 0 <= i < |Table| :: Table[i].name
  }

  predicate IsCategory(n: Name) {
    n in CategoryNames()
  }

  /** Index of the first table entry at or after `from` whose list holds `e`,
      or -1 when none does. */
  function FirstMatch(e: string, from: nat): (k: int)
    requires from <= |Table|
    ensures k == -1 ==> forall j :: from <= j < |Table| ==> e !in Table[j].extensions
    ensures k != -1 ==> from <= k < |Table| && e in Table[k].extensions
    ensures k != -1 ==> forall j :: from <= j < k ==> e !in Table[j].extensions
    decreases |Table| - from
  {
    if from == |Table| then -1
    else if e in Table[from].extensions then from
    else FirstMatch(e, from + 1)
  }

  /** The category of a file whose suffix is `suffix`: the first category
      whose list holds the lower-cased suffix, else the fallback. */
  function Classify(suffix: string): (c: Name)
    ensures IsCategory(c)
  {
    var k := FirstMatch(Lower(suffix), 0);
    if k == -1 then Others else Table[k].name
  }

  /** The category of a file, taken from its name's suffix. */
  function CategoryOf(name: Name): (c: Name)
    ensures IsCategory(c)
  {
    Classify(Suffix(name))
  }

  /** No string is listed in both `a` and `b`. */
  predicate NoCommonElement(a: seq<string>, b: seq<string>) {
    forall x :: x in a ==> x !in b
  }

  /** No suffix is listed under two categories. */
  predicate TableDisjoint() {
    forall i, j :: 0 <= i < j < |Table| ==> NoCommonElement(Table[i].extensions, Table[j].extensions)
  }

  /** No two table entries share a name. */
  predicate NamesDistinct() {
    forall i, j :: 0 <= i < j < |Table| ==> Table[i].name != Table[j].name
  }

  /** The suffixes of entry `i` appear under no later entry. */
  predicate RowDisjoint(i: nat)
    requires i < |Table|
  {
    forall j :: i < j < |Table| ==> NoCommonElement(Table[i].extensions, Table[j].extensions)
  }

  // The disjointness of the literal lists, one pair of lists at a time,
  // then row by row through the table's indices, so that each proof stays
  // small.

  /** An index of the table is one of its thirteen positions. */
  lemma TableIndex(j: int)
    requires 0 <= j < |Table|
    ensures j == 0 || j == 1 || j == 2 || j == 3 || j == 4 || j == 5 || j == 6
         || j == 7 || j == 8 || j == 9 || j == 10 || j == 11 || j == 12
  {
  }

  // The lists of the table, by position, a few rows per lemma.

  lemma ListsFromImages()
    ensures Table[0].extensions == ImagesSuffixes
    ensures Table[1].extensions == DocumentsSuffixes
    ensures Table[2].extensions == SpreadsheetsSuffixes
    ensures Table[3].extensions == PresentationsSuffixes
  {
  }

  lemma ListsFromVideos()
    ensures Table[4].extensions == VideosSuffixes
    ensures Table[5].extensions == AudioSuffixes
    ensures Table[6].extensions == ArchivesSuffixes
  {
  }

  lemma ListsFromExecutables()
    ensures Table[7].extensions == ExecutablesSuffixes
    ensures Table[8].extensions == CodeSuffixes
    ensures Table[9].extensions == FontsSuffixes
  {
  }

  lemma ListsFromeBooks()
    ensures Table[10].extensions == eBooksSuffixes
    ensures Table[11].extensions == CADSuffixes
    ensures Table[12].extensions == OthersSuffixes
  {
  }

  lemma ImagesApartFromDocuments()
    ensures NoCommonElement(ImagesSuffixes, DocumentsSuffixes)
  {
  }

  lemma ImagesApartFromSpreadsheets()
    ensures NoCommonElement(ImagesSuffixes, SpreadsheetsSuffixes)
  {
  }

  lemma ImagesApartFromPresentations()
    ensures NoCommonElement(ImagesSuffixes, PresentationsSuffixes)
  {
  }

  lemma ImagesApartFromVideos()
    ensures NoCommonElement(ImagesSuffixes, VideosSuffixes)
  {
  }

  lemma ImagesApartFromAudio()
    ensures NoCommonElement(ImagesSuffixes, AudioSuffixes)
  {
  }

  lemma ImagesApartFromArchives()
    ensures NoCommonElement(ImagesSuffixes, ArchivesSuffixes)
  {
  }

  lemma ImagesApartFromExecutables()
    ensures NoCommonElement(ImagesSuffixes, ExecutablesSuffixes)
  {
  }

  lemma ImagesApartFromCode()
    ensures NoCommonElement(ImagesSuffixes, CodeSuffixes)
  {
  }

  lemma ImagesApartFromFonts()
    ensures NoCommonElement(ImagesSuffixes, FontsSuffixes)
  {
  }

  lemma ImagesApartFromeBooks()
    ensures NoCommonElement(ImagesSuffixes, eBooksSuffixes)
  {
  }

  lemma ImagesApartFromCAD()
    ensures NoCommonElement(ImagesSuffixes, CADSuffixes)
  {
  }

  lemma ImagesRowDisjoint()
    ensures RowDisjoint(0)
  {
    ImagesApartFromDocuments();
    ImagesApartFromSpreadsheets();
    ImagesApartFromPresentations();
    ImagesApartFromVideos();
    ImagesApartFromAudio();
    ImagesApartFromArchives();
    ImagesApartFromExecutables();
    ImagesApartFromCode();
    ImagesApartFromFonts();
    ImagesApartFromeBooks();
    ImagesApartFromCAD();
    ListsFromImages();
    ListsFromVideos();
    ListsFromExecutables();
    ListsFromeBooks();
    forall j | 0 < j < |Table|
      ensures NoCommonElement(Table[0].extensions, Table[j].extensions)
    {
      TableIndex(j);
    }
  }

  lemma DocumentsApartFromSpreadsheets()
    ensures NoCommonElement(DocumentsSuffixes, SpreadsheetsSuffixes)
  {
  }

  lemma DocumentsApartFromPresentations()
    ensures NoCommonElement(DocumentsSuffixes, PresentationsSuffixes)
  {
  }

  lemma DocumentsApartFromVideos()
    ensures NoCommonElement(DocumentsSuffixes, VideosSuffixes)
  {
  }

  lemma DocumentsApartFromAudio()
    ensures NoCommonElement(DocumentsSuffixes, AudioSuffixes)
  {
  }

  lemma DocumentsApartFromArchives()
    ensures NoCommonElement(DocumentsSuffixes, ArchivesSuffixes)
  {
  }

  lemma DocumentsApartFromExecutables()
    ensures NoCommonElement(DocumentsSuffixes, ExecutablesSuffixes)
  {
  }

  lemma DocumentsApartFromCode()
    ensures NoCommonElement(DocumentsSuffixes, CodeSuffixes)
  {
  }

  lemma DocumentsApartFromFonts()
    ensures NoCommonElement(DocumentsSuffixes, FontsSuffixes)
  {
  }

  lemma DocumentsApartFromeBooks()
    ensures NoCommonElement(DocumentsSuffixes, eBooksSuffixes)
  {
  }

  lemma DocumentsApartFromCAD()
    ensures NoCommonElement(DocumentsSuffixes, CADSuffixes)
  {
  }

  lemma DocumentsRowDisjoint()
    ensures RowDisjoint(1)
  {
    DocumentsApartFromSpreadsheets();
    DocumentsApartFromPresentations();
    DocumentsApartFromVideos();
    DocumentsApartFromAudio();
    DocumentsApartFromArchives();
    DocumentsApartFromExecutables();
    DocumentsApartFromCode();
    DocumentsApartFromFonts();
    DocumentsApartFromeBooks();
    DocumentsApartFromCAD();
    ListsFromImages();
    ListsFromVideos();
    ListsFromExecutables();
    ListsFromeBooks();
    forall j | 1 < j < |Table|
      ensures NoCommonElement(Table[1].extensions, Table[j].extensions)
    {
      TableIndex(j);
    }
  }

  lemma SpreadsheetsApartFromPresentations()
    ensures NoCommonElement(SpreadsheetsSuffixes, PresentationsSuffixes)
  {
  }

  lemma SpreadsheetsApartFromVideos()
    ensures NoCommonElement(SpreadsheetsSuffixes, VideosSuffixes)
  {
  }

  lemma SpreadsheetsApartFromAudio()
    ensures NoCommonElement(SpreadsheetsSuffixes, AudioSuffixes)
  {
  }

  lemma SpreadsheetsApartFromArchives()
    ensures NoCommonElement(SpreadsheetsSuffixes, ArchivesSuffixes)
  {
  }

  lemma SpreadsheetsApartFromExecutables()
    ensures NoCommonElement(SpreadsheetsSuffixes, ExecutablesSuffixes)
  {
  }

  lemma SpreadsheetsApartFromCode()
    ensures NoCommonElement(SpreadsheetsSuffixes, CodeSuffixes)
  {
  }

  lemma SpreadsheetsApartFromFonts()
    ensures NoCommonElement(SpreadsheetsSuffixes, FontsSuffixes)
  {
  }

  lemma SpreadsheetsApartFromeBooks()
    ensures NoCommonElement(SpreadsheetsSuffixes, eBooksSuffixes)
  {
  }

  lemma SpreadsheetsApartFromCAD()
    ensures NoCommonElement(SpreadsheetsSuffixes, CADSuffixes)
  {
  }

  lemma SpreadsheetsRowDisjoint()
    ensures RowDisjoint(2)
  {
    SpreadsheetsApartFromPresentations();
    SpreadsheetsApartFromVideos();
    SpreadsheetsApartFromAudio();
    SpreadsheetsApartFromArchives();
    SpreadsheetsApartFromExecutables();
    SpreadsheetsApartFromCode();
    SpreadsheetsApartFromFonts();
    SpreadsheetsApartFromeBooks();
    SpreadsheetsApartFromCAD();
    ListsFromImages();
    ListsFromVideos();
    ListsFromExecutables();
    ListsFromeBooks();
    forall j | 2 < j < |Table|
      ensures NoCommonElement(Table[2].extensions, Table[j].extensions)
    {
      TableIndex(j);
    }
  }

  lemma PresentationsApartFromVideos()
    ensures NoCommonElement(PresentationsSuffixes, VideosSuffixes)
  {
  }

  lemma PresentationsApartFromAudio()
    ensures NoCommonElement(PresentationsSuffixes, AudioSuffixes)
  {
  }

  lemma PresentationsApartFromArchives()
    ensures NoCommonElement(PresentationsSuffixes, ArchivesSuffixes)
  {
  }

  lemma PresentationsApartFromExecutables()
    ensures NoCommonElement(PresentationsSuffixes, ExecutablesSuffixes)
  {
  }

  lemma PresentationsApartFromCode()
    ensures NoCommonElement(PresentationsSuffixes, CodeSuffixes)
  {
  }

  lemma PresentationsApartFromFonts()
    ensures NoCommonElement(PresentationsSuffixes, FontsSuffixes)
  {
  }

  lemma PresentationsApartFromeBooks()
    ensures NoCommonElement(PresentationsSuffixes, eBooksSuffixes)
  {
  }

  lemma PresentationsApartFromCAD()
    ensures NoCommonElement(PresentationsSuffixes, CADSuffixes)
  {
  }

  lemma PresentationsRowDisjoint()
    ensures RowDisjoint(3)
  {
    PresentationsApartFromVideos();
    PresentationsApartFromAudio();
    PresentationsApartFromArchives();
    PresentationsApartFromExecutables();
    PresentationsApartFromCode();
    PresentationsApartFromFonts();
    PresentationsApartFromeBooks();
    PresentationsApartFromCAD();
    ListsFromImages();
    ListsFromVideos();
    ListsFromExecutables();
    ListsFromeBooks();
    forall j | 3 < j < |Table|
      ensures NoCommonElement(Table[3].extensions, Table[j].extensions)
    {
      TableIndex(j);
    }
  }

  lemma VideosApartFromAudio()
    ensures NoCommonElement(VideosSuffixes, AudioSuffixes)
  {
  }

  lemma VideosApartFromArchives()
    ensures NoCommonElement(VideosSuffixes, ArchivesSuffixes)
  {
  }

  lemma VideosApartFromExecutables()
    ensures NoCommonElement(VideosSuffixes, ExecutablesSuffixes)
  {
  }

  lemma VideosApartFromCode()
    ensures NoCommonElement(VideosSuffixes, CodeSuffixes)
  {
  }

  lemma VideosApartFromFonts()
    ensures NoCommonElement(VideosSuffixes, FontsSuffixes)
  {
  }

  lemma VideosApartFromeBooks()
    ensures NoCommonElement(VideosSuffixes, eBooksSuffixes)
  {
  }

  lemma VideosApartFromCAD()
    ensures NoCommonElement(VideosSuffixes, CADSuffixes)
  {
  }

  lemma VideosRowDisjoint()
    ensures RowDisjoint(4)
  {
    VideosApartFromAudio();
    VideosApartFromArchives();
    VideosApartFromExecutables();
    VideosApartFromCode();
    VideosApartFromFonts();
    VideosApartFromeBooks();
    VideosApartFromCAD();
    ListsFromImages();
    ListsFromVideos();
    ListsFromExecutables();
    ListsFromeBooks();
    forall j | 4 < j < |Table|
      ensures NoCommonElement(Table[4].extensions, Table[j].extensions)
    {
      TableIndex(j);
    }
  }

  lemma AudioApartFromArchives()
    ensures NoCommonElement(AudioSuffixes, ArchivesSuffixes)
  {
  }

  lemma AudioApartFromExecutables()
    ensures NoCommonElement(AudioSuffixes, ExecutablesSuffixes)
  {
  }

  lemma AudioApartFromCode()
    ensures NoCommonElement(AudioSuffixes, CodeSuffixes)
  {
  }

  lemma AudioApartFromFonts()
    ensures NoCommonElement(AudioSuffixes, FontsSuffixes)
  {
  }

  lemma AudioApartFromeBooks()
    ensures NoCommonElement(AudioSuffixes, eBooksSuffixes)
  {
  }

  lemma AudioApartFromCAD()
    ensures NoCommonElement(AudioSuffixes, CADSuffixes)
  {
  }

  lemma AudioRowDisjoint()
    ensures RowDisjoint(5)
  {
    AudioApartFromArchives();
    AudioApartFromExecutables();
    AudioApartFromCode();
    AudioApartFromFonts();
    AudioApartFromeBooks();
    AudioApartFromCAD();
    ListsFromImages();
    ListsFromVideos();
    ListsFromExecutables();
    ListsFromeBooks();
    forall j | 5 < j < |Table|
      ensures NoCommonElement(Table[5].extensions, Table[j].extensions)
    {
      TableIndex(j);
    }
  }

  lemma ArchivesApartFromExecutables()
    ensures NoCommonElement(ArchivesSuffixes, ExecutablesSuffixes)
  {
  }

  lemma ArchivesApartFromCode()
    ensures NoCommonElement(ArchivesSuffixes, CodeSuffixes)
  {
  }

  lemma ArchivesApartFromFonts()
    ensures NoCommonElement(ArchivesSuffixes, FontsSuffixes)
  {
  }

  lemma ArchivesApartFromeBooks()
    ensures NoCommonElement(ArchivesSuffixes, eBooksSuffixes)
  {
  }

  lemma ArchivesApartFromCAD()
    ensures NoCommonElement(ArchivesSuffixes, CADSuffixes)
  {
  }

  lemma ArchivesRowDisjoint()
    ensures RowDisjoint(6)
  {
    ArchivesApartFromExecutables();
    ArchivesApartFromCode();
    ArchivesApartFromFonts();
    ArchivesApartFromeBooks();
    ArchivesApartFromCAD();
    ListsFromImages();
    ListsFromVideos();
    ListsFromExecutables();
    ListsFromeBooks();
    forall j | 6 < j < |Table|
      ensures NoCommonElement(Table[6].extensions, Table[j].extensions)
    {
      TableIndex(j);
    }
  }

  lemma ExecutablesApartFromCode()
    ensures NoCommonElement(ExecutablesSuffixes, CodeSuffixes)
  {
  }

  lemma ExecutablesApartFromFonts()
    ensures NoCommonElement(ExecutablesSuffixes, FontsSuffixes)
  {
  }

  lemma ExecutablesApartFromeBooks()
    ensures NoCommonElement(ExecutablesSuffixes, eBooksSuffixes)
  {
  }

  lemma ExecutablesApartFromCAD()
    ensures NoCommonElement(ExecutablesSuffixes, CADSuffixes)
  {
  }

  lemma ExecutablesRowDisjoint()
    ensures RowDisjoint(7)
  {
    ExecutablesApartFromCode();
    ExecutablesApartFromFonts();
    ExecutablesApartFromeBooks();
    ExecutablesApartFromCAD();
    ListsFromImages();
    ListsFromVideos();
    ListsFromExecutables();
    ListsFromeBooks();
    forall j | 7 < j < |Table|
      ensures NoCommonElement(Table[7].extensions, Table[j].extensions)
    {
      TableIndex(j);
    }
  }

  lemma CodeApartFromFonts()
    ensures NoCommonElement(CodeSuffixes, FontsSuffixes)
  {
  }

  lemma CodeApartFromeBooks()
    ensures NoCommonElement(CodeSuffixes, eBooksSuffixes)
  {
  }

  lemma CodeApartFromCAD()
    ensures NoCommonElement(CodeSuffixes, CADSuffixes)
  {
  }

  lemma CodeRowDisjoint()
    ensures RowDisjoint(8)
  {
    CodeApartFromFonts();
    CodeApartFromeBooks();
    CodeApartFromCAD();
    ListsFromImages();
    ListsFromVideos();
    ListsFromExecutables();
    ListsFromeBooks();
    forall j | 8 < j < |Table|
      ensures NoCommonElement(Table[8].extensions, Table[j].extensions)
    {
      TableIndex(j);
    }
  }

  lemma FontsApartFromeBooks()
    ensures NoCommonElement(FontsSuffixes, eBooksSuffixes)
  {
  }

  lemma FontsApartFromCAD()
    ensures NoCommonElement(FontsSuffixes, CADSuffixes)
  {
  }

  lemma FontsRowDisjoint()
    ensures RowDisjoint(9)
  {
    FontsApartFromeBooks();
    FontsApartFromCAD();
    ListsFromImages();
    ListsFromVideos();
    ListsFromExecutables();
    ListsFromeBooks();
    forall j | 9 < j < |Table|
      ensures NoCommonElement(Table[9].extensions, Table[j].extensions)
    {
      TableIndex(j);
    }
  }

  lemma eBooksApartFromCAD()
    ensures NoCommonElement(eBooksSuffixes, CADSuffixes)
  {
  }

  lemma eBooksRowDisjoint()
    ensures RowDisjoint(10)
  {
    eBooksApartFromCAD();
    ListsFromImages();
    ListsFromVideos();
    ListsFromExecutables();
    ListsFromeBooks();
    forall j | 10 < j < |Table|
      ensures NoCommonElement(Table[10].extensions, Table[j].extensions)
    {
      TableIndex(j);
    }
  }

  lemma TableDisjointHolds()
    ensures TableDisjoint()
  {
    forall i, j | 0 <= i < j < |Table|
      ensures NoCommonElement(Table[i].extensions, Table[j].extensions)
    {
      if i == 0 {
        ImagesRowDisjoint();
      } else if i == 1 {
        DocumentsRowDisjoint();
      } else if i == 2 {
        SpreadsheetsRowDisjoint();
      } else if i == 3 {
        PresentationsRowDisjoint();
      } else if i == 4 {
        VideosRowDisjoint();
      } else if i == 5 {
        AudioRowDisjoint();
      } else if i == 6 {
        ArchivesRowDisjoint();
      } else if i == 7 {
        ExecutablesRowDisjoint();
      } else if i == 8 {
        CodeRowDisjoint();
      } else if i == 9 {
        FontsRowDisjoint();
      } else if i == 10 {
        eBooksRowDisjoint();
      }
    }
  }

  /** Each name of the table by its first letter and its length, a pair no
      two names share. */
  const Signatures: seq<(char, nat)> := [
    ('I', 6), ('D', 9), ('S', 12), ('P', 13), ('V', 6), ('A', 5), ('A', 8),
    ('E', 11), ('C', 4), ('F', 5), ('e', 6), ('C', 3), ('O', 6)
  ]

  lemma NameSignatures()
    ensures forall k :: 0 <= k < |Table| ==> |Table[k].name| > 0 && (Table[k].name[0], |Table[k].name|) == Signatures[k]
  {
    forall k | 0 <= k < |Table|
      ensures |Table[k].name| > 0 && (Table[k].name[0], |Table[k].name|) == Signatures[k]
    {
      TableIndex(k);
    }
  }

  lemma SignaturesDistinct()
    ensures forall i, j :: 0 <= i < j < |Signatures| ==> Signatures[i] != Signatures[j]
  {
  }

  lemma NamesDistinctHolds()
    ensures NamesDistinct()
  {
    NameSignatures();
    SignaturesDistinct();
    forall i, j | 0 <= i < j < |Table|
      ensures Table[i].name != Table[j].name
    {
      assert Signatures[i] != Signatures[j];
    }
  }

  /** The literal table is well formed: no suffix under two categories, no
      name twice, and the fallback last with an empty list. */
  lemma TableWellFormed()
    ensures TableDisjoint()
    ensures NamesDistinct()
    ensures Table[|Table| - 1] == Category(Others, [])
    ensures forall i :: 0 <= i < |Table| - 1 ==> Table[i].name != Others
  {
    TableDisjointHolds();
    NamesDistinctHolds();
  }

  /** With the table disjoint, the first-match rule never decides anything:
      a suffix lands in a listed category exactly when that category lists
      its lower-case form. */
  lemma ClassifyListed(suffix: string, i: nat)
    requires i < |Table| - 1
    ensures Classify(suffix) == Table[i].name <==> Lower(suffix) in Table[i].extensions
  {
    TableWellFormed();
    var k := FirstMatch(Lower(suffix), 0);
    if k != -1 && k != i {
      if k < i {
        assert NoCommonElement(Table[k].extensions, Table[i].extensions);
      } else {
        assert NoCommonElement(Table[i].extensions, Table[k].extensions);
      }
    }
  }

  /** A suffix falls back to `Others` exactly when no list holds it. */
  lemma ClassifyFallback(suffix: string)
    ensures Classify(suffix) == Others <==> forall i :: 0 <= i < |Table| ==> Lower(suffix) !in Table[i].extensions
  {
    TableWellFormed();
  }

  /** Classification ignores case: a suffix and its lower-case form land in
      the same category. */
  lemma ClassifyIgnoresCase(suffix: string)
    ensures Classify(suffix) == Classify(Lower(suffix))
  {
    LowerIdempotent(suffix);
  }
}
