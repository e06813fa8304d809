/**
 * The handler for an application with one fixed PHP script: every HTTP
 * request it claims runs the same file, `root/<script>`.
 */
module PhpScriptLambdaEventHandler {
  import opened PhpStrings
  import opened LambdaEnvironment

  /**
   * The script path the constructor stores: the root, one slash, and the
   * script file name with its leading slashes removed.
   */
  function ScriptFilePath(root: string, scriptFilename: string): (r: string)
    ensures |r| > |root| && r[..|root| + 1] == root + "/"
    ensures var rest := r[|root| + 1..];
      && |rest| <= |scriptFilename|
      && rest == scriptFilename[|scriptFilename| - |rest|..]
      && (forall i :: 0 <= i < |scriptFilename| - |rest| ==> scriptFilename[i] == '/')
      && (rest == [] || rest[0] != '/')
  {
    var rest := LeftTrim(scriptFilename, '/');
    assert (root + "/" + rest)[|root| + 1..] == rest;
    root + "/" + rest
  }

  /** A script file name written with or without leading slashes names the same script. */
  lemma ScriptFilePathIgnoresLeadingSlash(root: string, scriptFilename: string)
    ensures ScriptFilePath(root, "/" + scriptFilename) == ScriptFilePath(root, scriptFilename)
  {
    LeftTrimCons(scriptFilename, '/');
  }

  /** A relative file name is appended to the root as it stands. */
  lemma ScriptFilePathOfRelativeName(root: string, scriptFilename: string)
    requires scriptFilename == [] || scriptFilename[0] != '/'
    ensures ScriptFilePath(root, scriptFilename) == root + "/" + scriptFilename
  {
    LeftTrimNoop(scriptFilename, '/');
  }

  /** `.php`, in any letter case, stands somewhere in the path. */
  ghost predicate MentionsPhp(path: string)
  {
    exists j: nat :: OccursAtIgnoreCase(path, ".php", j)
  }

  /**
   * The handler claims an HTTP request event when the stored path contains
   * `.php` (compared case-insensitively) anywhere and that file exists.
   */
  predicate CanHandle(fs: FileSystem, root: string, scriptFilename: string, event: InvocationEvent)
  {
    var path := ScriptFilePath(root, scriptFilename);
    && IsHttpRequestEvent(event)
    && IndexOfIgnoreCase(path, ".php") != NotFound
    && fs.FileExists(path)
  }

  /** Both directions: the claim is exactly an HTTP event, a `.php` somewhere in the path, and an existing file. */
  lemma CanHandleMeaning(fs: FileSystem, root: string, scriptFilename: string, event: InvocationEvent)
    ensures var path := ScriptFilePath(root, scriptFilename);
      CanHandle(fs, root, scriptFilename, event)
      <==> (IsHttpRequestEvent(event) && MentionsPhp(path) && fs.FileExists(path))
  {
    var path := ScriptFilePath(root, scriptFilename);
    var found := IndexOfIgnoreCase(path, ".php");
    if found.At? {
      assert OccursAtIgnoreCase(path, ".php", found.index);
    }
  }

  /** The script run for a request: the stored path, whatever the request. */
  function GetScriptFilePath(root: string, scriptFilename: string, event: HttpRequest): (r: string)
    ensures |r| > |root| && r[..|root| + 1] == root + "/"
  {
    ScriptFilePath(root, scriptFilename)
  }

  /** The request path plays no part in the script that runs. */
  lemma GetScriptFilePathIgnoresRequest(root: string, scriptFilename: string, e1: HttpRequest, e2: HttpRequest)
    ensures GetScriptFilePath(root, scriptFilename, e1) == GetScriptFilePath(root, scriptFilename, e2)
  {
  }

  /** A claimed request runs a file that exists. */
  lemma ClaimedScriptExists(fs: FileSystem, root: string, scriptFilename: string, event: HttpRequest)
    requires CanHandle(fs, root, scriptFilename, event)
    ensures fs.FileExists(GetScriptFilePath(root, scriptFilename, event))
  {
  }

  /**
   * Not a suffix test: an existing script `<name>.php<tail>`, such as
   * `index.php.bak`, is claimed whatever follows the extension.
   */
  lemma ExtensionAnywhereInName(fs: FileSystem, root: string, name: string, tail: string, event: HttpRequest)
    requires name == [] || name[0] != '/'
    requires fs.FileExists(root + "/" + name + ".php" + tail)
    ensures CanHandle(fs, root, name + ".php" + tail, event)
  {
    ScriptFilePathOfRelativeName(root, name + ".php" + tail);
    assert root + "/" + (name + ".php" + tail) == (root + "/" + name) + ".php" + tail;
    IndexOfIgnoreCaseFindsInfix(root + "/" + name, ".php", tail);
  }

  /**
   * Not even a test of the file name: `.php` in the root directory's name is
   * enough for any existing script below it.
   */
  lemma ExtensionInRootDirectory(fs: FileSystem, dir: string, more: string, scriptFilename: string, event: HttpRequest)
    requires fs.FileExists(ScriptFilePath(dir + ".php" + more, scriptFilename))
    ensures CanHandle(fs, dir + ".php" + more, scriptFilename, event)
  {
    var root := dir + ".php" + more;
    var path := ScriptFilePath(root, scriptFilename);
    assert path == root + path[|root|..];
    assert path == dir + ".php" + (more + path[|root|..]);
    IndexOfIgnoreCaseFindsInfix(dir, ".php", more + path[|root|..]);
  }

  /** A path without `.php` in any letter case is never claimed, even when the file exists. */
  lemma NoExtensionNotClaimed(fs: FileSystem, root: string, scriptFilename: string, event: InvocationEvent)
    requires forall j: nat :: !OccursAtIgnoreCase(ScriptFilePath(root, scriptFilename), ".php", j)
    ensures !CanHandle(fs, root, scriptFilename, event)
  {
  }

  /** Non-HTTP events are never claimed. */
  lemma OtherEventsNotClaimed(fs: FileSystem, root: string, scriptFilename: string, id: string)
    ensures !CanHandle(fs, root, scriptFilename, OtherEvent(id))
  {
  }
}
