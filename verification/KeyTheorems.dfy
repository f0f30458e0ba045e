/** What an event's action key is, letter by letter: its file name and content stay out of it. */
module KeyTheorems {
  import opened Wrappers
  import opened Domain

  // --- the name a path ends in ---

  lemma LastIndexIs(s: string, c: char, at: int)
    requires -1 <= at < |s| && (at >= 0 ==> s[at] == c) && forall i :: at < i < |s| ==> s[i] != c
    ensures LastIndexOf(s, c) == at
  {
  }

  /** A text that is one component of a path and names something in its directory. */
  predicate IsName(name: string) {
    name != "" && '/' !in name && name != "." && name != ".."
  }

  /** A path that ends in a name has that file name, whatever directory comes before it. */
  lemma NameIsFound(dir: string, name: string)
    requires IsName(name)
    ensures FileName(name) == Some(name) && FileName(dir + "/" + name) == Some(name)
  {
    LastIndexIs(name, '/', -1);
    assert name[0..] == name;
    var path := dir + "/" + name;
    assert path[|dir|] == '/' && forall i :: |dir| < i < |path| ==> path[i] == name[i - |dir| - 1];
    LastIndexIs(path, '/', |dir|);
    assert path[|dir| + 1..] == name;
  }

  /** Separators and "." at the end of a path are ignored; after ".." nothing is named. */
  lemma PathEnds(path: string)
    ensures FileName(path + "/") == FileName(path) && FileName(path + "/.") == FileName(path)
    ensures FileName(path + "/..") == None && FileName("") == None
  {
    var slashed, dotted, up := path + "/", path + "/.", path + "/..";
    LastIndexIs(slashed, '/', |path|);
    assert slashed[|path| + 1..] == "" && slashed[..|slashed| - 1] == path;
    LastIndexIs(dotted, '/', |path|);
    assert dotted[|path| + 1..] == "." && dotted[..|path| + 1] == slashed;
    LastIndexIs(up, '/', |path|);
    assert up[|path| + 1..] == "..";
  }

  // --- keys of file operations ---

  /** A file operation as it is stored: what was done, and to which path. */
  predicate IsFileOperation(e: EventSummary, operation: string, path: string) {
    && e.signalType == FileOperationMetadata && e.summary.Some?
    && "operation" in e.summary.value && e.summary.value["operation"] == JsonString(operation)
    && "path" in e.summary.value && e.summary.value["path"] == JsonString(path)
  }

  lemma NameWithDot(stem: string, suffix: string)
    requires stem != "" && '/' !in stem && '/' !in suffix && '.' !in suffix && !(stem == "." && suffix == "")
    ensures IsName(stem + "." + suffix)
  {
    var name := stem + "." + suffix;
    assert name[0] == stem[0] && name[|stem|] == '.';
    assert |name| == 2 ==> stem == [name[0]];
  }

  lemma ExtensionIs(dir: string, stem: string, suffix: string)
    requires stem != "" && '/' !in stem && '/' !in suffix && '.' !in suffix && !(stem == "." && suffix == "")
    ensures Extension(dir + "/" + (stem + "." + suffix)) == Some(suffix)
  {
    var name := stem + "." + suffix;
    NameWithDot(stem, suffix);
    NameIsFound(dir, name);
    SuffixComesLast(stem, suffix);
    AfterTheDot(dir + "/" + name, name, |stem|);
  }

  lemma SuffixComesLast(stem: string, suffix: string)
    ensures var name := stem + "." + suffix; name[|stem|] == '.' && name[|stem| + 1..] == suffix
  {
  }

  lemma AfterTheDot(path: string, name: string, at: nat)
    requires 0 < at < |name| && name[at] == '.' && '.' !in name[at + 1..] && FileName(path) == Some(name)
    ensures Extension(path) == Some(name[at + 1..])
  {
    LastDot(name, at);
  }

  lemma LastDot(name: string, at: nat)
    requires at < |name| && name[at] == '.' && '.' !in name[at + 1..]
    ensures LastIndexOf(name, '.') == at
  {
    forall i | at < i < |name| ensures name[i] != '.' {
      assert name[i] == name[at + 1..][i - at - 1];
    }
    LastIndexIs(name, '.', at);
  }

  lemma NoExtensionOf(dir: string, name: string)
    requires IsName(name) && forall i :: 1 <= i < |name| ==> name[i] != '.'
    ensures Extension(dir + "/" + name) == None
  {
    NameIsFound(dir, name);
    NoLaterDot(dir + "/" + name, name);
  }

  lemma NoLaterDot(path: string, name: string)
    requires name != "" && FileName(path) == Some(name) && forall i :: 1 <= i < |name| ==> name[i] != '.'
    ensures Extension(path) == None
  {
    LastIndexIs(name, '.', if name[0] == '.' then 0 else -1);
  }

  /** Of a name with a dot after its first character, the key holds what follows the last one. */
  lemma ExtensionIsTheKey(e: EventSummary, operation: string, dir: string, stem: string, suffix: string)
    requires stem != "" && '/' !in stem && '/' !in suffix && '.' !in suffix && !(stem == "." && suffix == "")
    requires IsFileOperation(e, operation, dir + "/" + (stem + "." + suffix))
    ensures ActionKey(e) == "file_operation_metadata:" + (operation + ":" + suffix)
  {
    ExtensionIs(dir, stem, suffix);
    KeyOfFile(e, operation, dir + "/" + (stem + "." + suffix), suffix);
  }

  /** A name without a dot, or with one in front only, has no extension to show. */
  lemma NoExtensionIsTheKey(e: EventSummary, operation: string, dir: string, name: string)
    requires IsName(name) && forall i :: 1 <= i < |name| ==> name[i] != '.'
    requires IsFileOperation(e, operation, dir + "/" + name)
    ensures ActionKey(e) == "file_operation_metadata:" + (operation + ":" + "no_extension")
  {
    NoExtensionOf(dir, name);
    KeyOfFile(e, operation, dir + "/" + name, "no_extension");
  }

  lemma KeyOfFile(e: EventSummary, operation: string, path: string, shown: string)
    requires IsFileOperation(e, operation, path)
    requires Extension(path) == Some(shown) || (Extension(path) == None && shown == "no_extension")
    ensures ActionKey(e) == "file_operation_metadata:" + (operation + ":" + shown)
  {
    assert Subject(e) == FileSubject(Some(operation), Some(path));
    KeyOfSubject(e, operation + ":" + shown);
  }

  lemma KeyOfSubject(e: EventSummary, subject: string)
    requires e.signalType == FileOperationMetadata && Subject(e) == Some(subject)
    ensures ActionKey(e) == "file_operation_metadata:" + subject
  {
  }

  /** Two files in any two directories, with any two stems and one suffix, are the same to the detector. */
  lemma StemAndDirectoryAreInvisible(
    e: EventSummary, f: EventSummary, operation: string, dir: string, dir': string, stem: string, stem': string,
    suffix: string)
    requires '/' !in stem && '/' !in stem' && '/' !in suffix && '.' !in suffix
    requires stem !in {"", "."} && stem' !in {"", "."}
    requires IsFileOperation(e, operation, dir + "/" + (stem + "." + suffix))
    requires IsFileOperation(f, operation, dir' + "/" + (stem' + "." + suffix))
    ensures ActionKey(e) == ActionKey(f)
  {
    ExtensionIsTheKey(e, operation, dir, stem, suffix);
    ExtensionIsTheKey(f, operation, dir', stem', suffix);
  }

  // --- keys of the other signals ---

  predicate Holds(e: EventSummary, name: string, text: string) {
    e.summary.Some? && name in e.summary.value && e.summary.value[name] == JsonString(text)
  }

  predicate Lacks(e: EventSummary, name: string) {
    e.summary.Some? && name in e.summary.value ==> !e.summary.value[name].JsonString?
  }

  /** The key of a signal with a subject is its type and the subject. */
  lemma KeysWithSubject(e: EventSummary, text: string)
    ensures e.signalType == AppFocusChange && Holds(e, "app", text) ==> ActionKey(e) == "app_focus_change:" + text
    ensures e.signalType == ShortcutUsed && Holds(e, "shortcut", text) ==> ActionKey(e) == "shortcut_used:" + text
    ensures e.signalType == BrowserDomainVisited && Holds(e, "domain", text) ==>
      ActionKey(e) == "browser_domain_visited:" + text
    ensures e.signalType == ClipboardMetadata && Holds(e, "content_type", text) ==>
      ActionKey(e) == "clipboard_metadata:" + text
  {
  }

  /** Without one it is the source and the type; titles and texts never have one. */
  lemma KeysWithoutSubject(e: EventSummary)
    ensures e.signalType == WindowTitle ==> ActionKey(e) == e.sourceId + ":" + "window_title"
    ensures e.signalType == AppActionEvent ==> ActionKey(e) == e.sourceId + ":" + "app_action_event"
    ensures e.signalType == OcrText ==> ActionKey(e) == e.sourceId + ":" + "ocr_text"
    ensures e.signalType == Screenshot ==> ActionKey(e) == e.sourceId + ":" + "screenshot"
    ensures e.signalType == AccessibilityTree ==> ActionKey(e) == e.sourceId + ":" + "accessibility_tree"
    ensures e.signalType == AppFocusChange && Lacks(e, "app") ==> ActionKey(e) == e.sourceId + ":" + "app_focus_change"
    ensures e.signalType == ShortcutUsed && Lacks(e, "shortcut") ==> ActionKey(e) == e.sourceId + ":" + "shortcut_used"
    ensures e.signalType == BrowserDomainVisited && Lacks(e, "domain") ==>
      ActionKey(e) == e.sourceId + ":" + "browser_domain_visited"
    ensures e.signalType == ClipboardMetadata && Lacks(e, "content_type") ==>
      ActionKey(e) == e.sourceId + ":" + "clipboard_metadata"
    ensures e.signalType == FileOperationMetadata && Lacks(e, "operation") ==>
      ActionKey(e) == e.sourceId + ":" + "file_operation_metadata"
  {
  }

  /** A file operation without a path shows none. */
  lemma KeyWithoutPath(e: EventSummary, operation: string)
    requires e.signalType == FileOperationMetadata && Holds(e, "operation", operation) && Lacks(e, "path")
    ensures ActionKey(e) == "file_operation_metadata:" + (operation + ":" + "no_extension")
  {
    assert Subject(e) == FileSubject(Some(operation), None);
    KeyOfSubject(e, operation + ":" + "no_extension");
  }
}
