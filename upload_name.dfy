/**
 * The filename under which a note is uploaded to the content service
 * (pkg/service/service_impl.go:109-114): remove every space from the note's
 * name, drop its final extension as Go's `filepath.Ext` finds it (the suffix
 * from the last `.`, provided no `/` follows that dot), then append `.txt`.
 */
module UploadName {
  import opened Wrappers

  /** `strings.Replace(s, " ", "", -1)`. */
  function RemoveSpaces(s: string): (r: string)
    ensures ' ' !in r
    ensures ' ' !in s ==> r == s
  {
    if s == [] then []
    else (if s[0] == ' ' then [] else [s[0]]) + RemoveSpaces(s[1..])
  }

  /** Only spaces are removed: every other character stays. */
  lemma {:induction false} RemoveSpacesKeeps(s: string, c: char)
    ensures c in RemoveSpaces(s) <==> c in s && c != ' '
  {
    if s != [] {
      RemoveSpacesKeeps(s[1..], c);
      assert c in s <==> c == s[0] || c in s[1..];
    }
  }

  /** Removing spaces distributes over concatenation. */
  lemma {:induction false} RemoveSpacesAppend(a: string, b: string)
    ensures RemoveSpaces(a + b) == RemoveSpaces(a) + RemoveSpaces(b)
  {
    if a == [] {
      assert a + b == b;
    } else {
      assert (a + b)[1..] == a[1..] + b;
      RemoveSpacesAppend(a[1..], b);
    }
  }

  /** The index of the dot that starts the extension, if there is one. */
  function ExtensionStart(s: string): (r: Option<nat>)
    ensures r.Some? ==> r.value < |s| && s[r.value] == '.'
    ensures r.Some? ==> forall j | r.value < j < |s| :: s[j] != '.' && s[j] != '/'
    ensures r.None? ==> forall j | 0 <= j < |s| && s[j] == '.' :: '/' in s[j + 1..]
  {
    if s == [] then None
    else if s[|s| - 1] == '/' then None
    else if s[|s| - 1] == '.' then Some(|s| - 1)
    else
      var r := ExtensionStart(s[..|s| - 1]);
      assert forall j | 0 <= j < |s| - 1 :: s[..|s| - 1][j] == s[j];
      assert r.None? ==> forall j | 0 <= j < |s| - 1 && s[j] == '.' :: '/' in s[j + 1..] by {
        if r.None? {
          forall j | 0 <= j < |s| - 1 && s[j] == '.' ensures '/' in s[j + 1..] {
            assert s[..|s| - 1][j + 1..] <= s[j + 1..];
          }
        }
      }
      r
  }

  /** `filepath.Ext`: the extension including its dot, or "" when there is none. */
  function Ext(s: string): (r: string)
    ensures |r| <= |s| && r == s[|s| - |r|..]
    ensures r != "" ==> r[0] == '.' && '.' !in r[1..] && '/' !in r
    ensures r == "" ==> forall j | 0 <= j < |s| && s[j] == '.' :: '/' in s[j + 1..]
  {
    match ExtensionStart(s)
    case None => ""
    case Some(i) =>
      assert forall j | 0 <= j < |s| - i - 1 :: s[i..][1..][j] == s[i + 1 + j];
      s[i..]
  }

  /** The filename of the uploaded form file. */
  function UploadFileName(name: string): (r: string)
    ensures |r| >= 4 && r[|r| - 4..] == ".txt"
    ensures ' ' !in r
  {
    var fileName := RemoveSpaces(name);
    var extension := Ext(fileName);
    var base := if extension != "" then fileName[..|fileName| - |extension|] else fileName;
    assert forall c | c in base :: c in fileName;
    base + ".txt"
  }

  /**
   * Only the last extension goes: a space-free base followed by one
   * extension without dots or slashes becomes the base plus `.txt`.
   */
  lemma ReplacesLastExtension(base: string, ext: string)
    requires ' ' !in base && ext != "" && ext[0] == '.'
    requires ' ' !in ext && '.' !in ext[1..] && '/' !in ext
    ensures UploadFileName(base + ext) == base + ".txt"
  {
    var s := base + ext;
    assert ' ' !in s;
    assert RemoveSpaces(s) == s;
    var e := ExtensionStart(s);
    assert s[|base|] == '.';
    assert s[|base| + 1..] == ext[1..];
    assert e.Some?;
    assert forall j | |base| < j < |s| :: s[j] == ext[1..][j - |base| - 1];
    assert e.value == |base|;
    assert Ext(s) == ext;
  }

  /** Deriving the filename is idempotent. */
  lemma UploadFileNameIdempotent(name: string)
    ensures UploadFileName(UploadFileName(name)) == UploadFileName(name)
  {
    var r := UploadFileName(name);
    var base := r[..|r| - 4];
    assert r == base + ".txt";
    assert ' ' !in base by { assert forall c :: c in base ==> c in r; }
    ReplacesLastExtension(base, ".txt");
  }

  /** Spaces in the name do not matter. */
  lemma UploadFileNameIgnoresSpaces(name: string)
    ensures UploadFileName(RemoveSpaces(name)) == UploadFileName(name)
  {
  }

  /** A name without a dot keeps everything but its spaces. */
  lemma DotlessName(name: string)
    requires '.' !in name
    ensures UploadFileName(name) == RemoveSpaces(name) + ".txt"
  {
    RemoveSpacesKeeps(name, '.');
    assert ExtensionStart(RemoveSpaces(name)).None?;
  }

  /** An inner extension survives: `draft.v2.md` becomes `draft.v2.txt`. */
  lemma DraftExample()
    ensures UploadFileName("draft.v2" + ".md") == "draft.v2" + ".txt"
  {
    var base, ext := "draft.v2", ".md";
    assert ext[1..] == "md";
    ReplacesLastExtension(base, ext);
  }

  /** An empty name becomes `.txt`. */
  lemma EmptyNameExample()
    ensures UploadFileName("") == ".txt"
  {
  }

  /** Names that agree once spaces are removed get the same filename. */
  lemma SameWithoutSpaces(a: string, b: string)
    requires RemoveSpaces(a) == RemoveSpaces(b)
    ensures UploadFileName(a) == UploadFileName(b)
  {
  }

  /** `"x y"` loses its one space. */
  lemma RemoveOneSpace(front: string, back: string)
    requires ' ' !in front && ' ' !in back
    ensures RemoveSpaces(front + " " + back) == front + back
  {
    assert front + " " + back == front + (" " + back);
    RemoveSpacesAppend(front, " " + back);
    RemoveSpacesAppend(" ", back);
  }

  /** Spaces go: `my note` becomes `mynote.txt`. */
  lemma SpacedDotlessName(front: string, back: string)
    requires ' ' !in front && ' ' !in back && '.' !in front && '.' !in back
    ensures UploadFileName(front + " " + back) == front + back + ".txt"
  {
    RemoveOneSpace(front, back);
    SameWithoutSpaces(front + " " + back, front + back);
    DotlessName(front + back);
  }

  /**
   * A space before the extension goes too: `my file.md` becomes `myfile.txt`
   * and `foo .txt` becomes `foo.txt`.
   */
  lemma SpacedExtension(front: string, back: string, ext: string)
    requires ' ' !in front && ' ' !in back
    requires ext != "" && ext[0] == '.' && ' ' !in ext && '.' !in ext[1..] && '/' !in ext
    ensures UploadFileName(front + " " + back + ext) == front + back + ".txt"
  {
    assert front + " " + back + ext == front + " " + (back + ext);
    RemoveOneSpace(front, back + ext);
    assert front + (back + ext) == (front + back) + ext;
    SameWithoutSpaces(front + " " + back + ext, (front + back) + ext);
    ReplacesLastExtension(front + back, ext);
  }
}
