/**
 * The handler for a Bedrock WordPress installation: when it claims an
 * event, and which PHP file under the application root it runs for a request
 * path. WordPress's own admin, login and content URLs live under `web/wp/`
 * in a Bedrock layout, so request paths are rewritten before they are
 * resolved to a file.
 */
module BedrockLambdaEventHandler {
  import opened PhpStrings
  import opened LambdaEnvironment

  const AutoloaderFile := "/web/app/mu-plugins/bedrock-autoloader.php"
  const AppDirectory := "/web/app/"
  const WpConfigFile := "/web/wp-config.php"
  const ApplicationConfigFile := "/config/application.php"
  const FallbackScript := "/web/index.php"

  // ---------------------------------------------------------------------------
  // canHandle
  // ---------------------------------------------------------------------------

  /**
   * A Bedrock layout is present under `root`: the Bedrock autoloader
   * must-use plugin exists, or the `web/app/` directory exists together with
   * both `web/wp-config.php` and `config/application.php`.
   */
  predicate HasBedrockLayout(fs: FileSystem, root: string)
  {
    || fs.FileExists(root + AutoloaderFile)
    || (&& fs.IsDir(root + AppDirectory)
        && fs.FileExists(root + WpConfigFile)
        && fs.FileExists(root + ApplicationConfigFile))
  }

  function CanHandle(fs: FileSystem, root: string, event: InvocationEvent): (r: bool)
    ensures !IsHttpRequestEvent(event) ==> !r
    ensures IsHttpRequestEvent(event) ==> (r <==> HasBedrockLayout(fs, root))
  {
    IsHttpRequestEvent(event) && HasBedrockLayout(fs, root)
  }

  /** Whether the handler claims an event does not depend on the request path. */
  lemma CanHandleIgnoresPath(fs: FileSystem, root: string, e1: HttpRequest, e2: HttpRequest)
    ensures CanHandle(fs, root, e1) == CanHandle(fs, root, e2)
  {
  }

  /** Adding files or directories never makes the handler drop an event it claimed. */
  lemma CanHandleMonotone(fs: FileSystem, more: FileSystem, root: string, event: InvocationEvent)
    requires fs.regularFiles <= more.regularFiles && fs.directories <= more.directories
    requires CanHandle(fs, root, event)
    ensures CanHandle(more, root, event)
  {
  }

  // ---------------------------------------------------------------------------
  // The two patterns of the rewrite
  // ---------------------------------------------------------------------------

  /**
   * `preg_match('/^\/(wp-.*.php)$/', $path)` for a path without a newline:
   * "/wp-", then at least one character (the unescaped dot), then "php".
   */
  predicate MatchesLoginPattern(path: string)
  {
    |path| >= 8 && path[..4] == "/wp-" && path[|path| - 3..] == "php"
  }

  /** One way the login pattern's parts `/wp-`, `.*`, `.` and `php` cover the path. */
  ghost predicate LoginPatternParse(path: string, anything: string, one: char)
  {
    path == "/wp-" + anything + [one] + "php"
  }

  /** The login predicate is the regular expression's language. */
  lemma LoginPatternIsRegex(path: string)
    ensures MatchesLoginPattern(path) <==> exists anything: string, one: char :: LoginPatternParse(path, anything, one)
  {
    if MatchesLoginPattern(path) {
      var anything, one := path[4..|path| - 4], path[|path| - 4];
      assert path == path[..4] + anything + [one] + path[|path| - 3..];
      assert LoginPatternParse(path, anything, one);
    }
    if exists anything: string, one: char :: LoginPatternParse(path, anything, one) {
      var anything: string, one: char :| LoginPatternParse(path, anything, one);
      assert path[..4] == "/wp-";
      assert path[|path| - 3..] == "php";
    }
  }

  /** `w` stands in `s` at position `i`, compared case-sensitively. */
  predicate StartsAt(s: string, i: nat, w: string)
  {
    i + |w| <= |s| && s[i..i + |w|] == w
  }

  /** `\/wp-(content|admin|includes)` matches at position `i` of the path. */
  predicate AdminSegmentAt(path: string, i: nat)
  {
    StartsAt(path, i, "/wp-content") || StartsAt(path, i, "/wp-admin") || StartsAt(path, i, "/wp-includes")
  }

  /** Where `preg_match('/\/(wp-(content|admin|includes).*)/', $path)` matches: the leftmost position. */
  function AdminSegmentMatch(path: string): (r: Position)
    ensures r.At? ==> AdminSegmentAt(path, r.index) && forall j: nat :: j < r.index ==> !AdminSegmentAt(path, j)
    ensures r.NotFound? ==> forall j: nat :: !AdminSegmentAt(path, j)
  {
    var at := (i: nat) => AdminSegmentAt(path, i);
    var r := FirstIndex(at, 0, |path|);
    assert forall j: nat :: at(j) == AdminSegmentAt(path, j);
    r
  }

  /** The outcome of the two `preg_match` calls at line 42: the captured group `$matches[1]`. */
  datatype LineMatch = NoMatch | Matched(group: string)

  function WordPressMatch(path: string): LineMatch
  {
    if MatchesLoginPattern(path) then Matched(path[1..])
    else match AdminSegmentMatch(path)
      case At(i) => Matched(path[i + 1..])
      case NotFound => NoMatch
  }

  // ---------------------------------------------------------------------------
  // getEventFilePath
  // ---------------------------------------------------------------------------

  /** First step: WordPress admin, login and content URLs move into the `wp/` namespace. */
  function RewriteWordPressPath(path: string): string
  {
    match WordPressMatch(path)
    case Matched(group) => if !IsEmpty(group) then "wp/" + LeftTrim(group, '/') else path
    case NoMatch => path
  }

  /** Second step: a path that starts with `wp/`, in any letter case, moves under `web/`. */
  function RemapWpDirectory(path: string): string
  {
    if IndexOfIgnoreCase(path, "wp/") == At(0) then "web/" + LeftTrim(path, '/') else path
  }

  /** The file the request path names under the application root. */
  function EventFilePath(root: string, event: HttpRequest): string
  {
    root + "/" + LeftTrim(RemapWpDirectory(RewriteWordPressPath(event.path)), '/')
  }

  /** Neither pattern of line 42 matches the path. */
  ghost predicate NoWordPressPattern(path: string)
  {
    !MatchesLoginPattern(path) && forall i: nat :: !AdminSegmentAt(path, i)
  }

  /** A path starting with `wp/` up to letter case, the test `0 === stripos($path, 'wp/')`. */
  predicate StartsWithWpDirectory(path: string)
  {
    |path| >= 3 && EqualsIgnoreCase(path[..3], "wp/")
  }

  /** A rewritten path `wp/` + group is remapped and joined to `root/web/wp/` + group. */
  lemma JoinRewritten(root: string, group: string)
    requires |group| > 0 && group[0] == 'w'
    ensures root + "/" + LeftTrim(RemapWpDirectory("wp/" + LeftTrim(group, '/')), '/')
         == root + "/web/wp/" + group
  {
    var p := "wp/" + group;
    assert LeftTrim(group, '/') == group by {
      LeftTrimNoop(group, '/');
    }
    assert RemapWpDirectory(p) == "web/" + p by {
      assert p[..3] == "wp/";
      IndexOfIgnoreCaseAtZero(p, "wp/");
      LeftTrimNoop(p, '/');
    }
    assert LeftTrim("web/" + p, '/') == "web/" + p by {
      LeftTrimNoop("web/" + p, '/');
    }
    JoinLiterals(root, group);
  }

  /** How the pieces of a rewritten path concatenate. */
  lemma JoinLiterals(root: string, group: string)
    ensures root + "/" + ("web/" + ("wp/" + group)) == root + "/web/wp/" + group
  {
  }

  /** Wherever the admin pattern matches, `/wp-` stands there, followed by one of `c`, `a`, `i`. */
  lemma AdminSegmentShape(path: string, i: nat)
    ensures AdminSegmentAt(path, i) ==>
      && i + 9 <= |path|
      && path[i] == '/' && path[i + 1] == 'w' && path[i + 2] == 'p' && path[i + 3] == '-'
      && (path[i + 4] == 'c' || path[i + 4] == 'a' || path[i + 4] == 'i')
  {
    if StartsAt(path, i, "/wp-content") {
      SliceChars(path, i, 11);
    } else if StartsAt(path, i, "/wp-admin") {
      SliceChars(path, i, 9);
    } else if StartsAt(path, i, "/wp-includes") {
      SliceChars(path, i, 12);
    }
  }

  /** The first five characters of a slice are those of the string it is cut from. */
  lemma SliceChars(path: string, i: nat, n: nat)
    requires 5 <= n && i + n <= |path|
    ensures var w := path[i..i + n];
      path[i] == w[0] && path[i + 1] == w[1] && path[i + 2] == w[2] && path[i + 3] == w[3] && path[i + 4] == w[4]
  {
  }

  /** Login rule: `/wp-….php` resolves to `root/web/wp/` followed by the path without its first slash. */
  lemma LoginRule(root: string, event: HttpRequest)
    requires MatchesLoginPattern(event.path)
    ensures EventFilePath(root, event) == root + "/web/wp/" + event.path[1..]
  {
    var group := event.path[1..];
    assert group[0] == 'w' by {
      assert event.path[..4][1] == 'w';
    }
    assert RewriteWordPressPath(event.path) == "wp/" + LeftTrim(group, '/') by {
      assert WordPressMatch(event.path) == Matched(group);
      assert !IsEmpty(group);
    }
    JoinRewritten(root, group);
  }

  /**
   * Admin rule: when the login pattern fails, everything before the leftmost
   * `/wp-content`, `/wp-admin` or `/wp-includes` is dropped and the rest lives
   * under `root/web/wp/`.
   */
  lemma AdminRule(root: string, event: HttpRequest, i: nat)
    requires !MatchesLoginPattern(event.path)
    requires AdminSegmentAt(event.path, i)
    requires forall j: nat :: j < i ==> !AdminSegmentAt(event.path, j)
    ensures EventFilePath(root, event) == root + "/web/wp/" + event.path[i + 1..]
  {
    var path := event.path;
    var m := AdminSegmentMatch(path);
    assert m == At(i);
    var group := path[i + 1..];
    assert group[0] == 'w' by {
      AdminSegmentShape(path, i);
    }
    assert WordPressMatch(path) == Matched(group);
    assert !IsEmpty(group);
    assert RewriteWordPressPath(path) == "wp/" + LeftTrim(group, '/');
    JoinRewritten(root, group);
  }

  /** Remap rule: a path neither pattern matches that starts with `wp/` (any case) becomes `root/web/` + path. */
  lemma RemapRule(root: string, event: HttpRequest)
    requires NoWordPressPattern(event.path)
    requires StartsWithWpDirectory(event.path)
    ensures EventFilePath(root, event) == root + "/web/" + event.path
  {
    var path := event.path;
    assert AdminSegmentMatch(path) == NotFound;
    IndexOfIgnoreCaseAtZero(path, "wp/");
    assert path[0] != '/' by {
      assert ToLowerAscii(path[0]) == 'w';
    }
    LeftTrimNoop(path, '/');
    LeftTrimNoop("web/" + path, '/');
  }

  /** Every other path is joined to the root with its leading slashes stripped. */
  lemma PlainRule(root: string, event: HttpRequest)
    requires NoWordPressPattern(event.path)
    requires !StartsWithWpDirectory(event.path)
    ensures EventFilePath(root, event) == root + "/" + LeftTrim(event.path, '/')
  {
    assert AdminSegmentMatch(event.path) == NotFound;
    IndexOfIgnoreCaseAtZero(event.path, "wp/");
  }

  /** A leading slash defeats the `wp/` test: `/wp/…` outside the two patterns is not remapped. */
  lemma RawWpDirectoryNotRemapped(root: string, rest: string, event: HttpRequest)
    requires event.path == "/wp/" + rest
    requires forall i: nat :: !AdminSegmentAt(event.path, i)
    ensures EventFilePath(root, event) == root + event.path
  {
    var path := event.path;
    WpDirectoryChars(path, rest);
    assert !MatchesLoginPattern(path);
    assert !StartsWithWpDirectory(path);
    PlainRule(root, event);
    LeftTrimOneSlash(path);
    JoinAfterSlash(root, path);
  }

  /** The characters of `/wp/…`. */
  lemma WpDirectoryChars(path: string, rest: string)
    requires path == "/wp/" + rest
    ensures |path| >= 4 && path[0] == '/' && path[1] == 'w' && path[2] == 'p' && path[3] == '/'
  {
  }

  /** `ltrim` removes the single leading slash of a path whose second character is not one. */
  lemma LeftTrimOneSlash(path: string)
    requires |path| >= 2 && path[0] == '/' && path[1] != '/'
    ensures LeftTrim(path, '/') == path[1..]
  {
    assert path == ['/'] + path[1..];
    LeftTrimCons(path[1..], '/');
    LeftTrimNoop(path[1..], '/');
  }

  /** Joining with a slash what follows a leading slash gives back the path. */
  lemma JoinAfterSlash(root: string, path: string)
    requires |path| > 0 && path[0] == '/'
    ensures root + "/" + path[1..] == root + path
  {
    assert path == "/" + path[1..];
  }

  /** The result is always the root, one slash, and a rest that does not start with a slash. */
  lemma EventFilePathJoin(root: string, event: HttpRequest)
    ensures var r := EventFilePath(root, event);
      && |r| > |root|
      && r[..|root| + 1] == root + "/"
      && (|r| == |root| + 1 || r[|root| + 1] != '/')
  {
    var rest := LeftTrim(RemapWpDirectory(RewriteWordPressPath(event.path)), '/');
    var r := EventFilePath(root, event);
    assert r == (root + "/") + rest;
    assert r[..|root| + 1] == root + "/";
    if |rest| > 0 {
      assert r[|root| + 1] == rest[0];
    }
  }

  /**
   * The four rules cover every path. The login rule goes first; the admin rule
   * applies at the leftmost admin segment when the login pattern fails; paths
   * matching neither pattern are remapped when they start with `wp/` and are
   * otherwise joined as they stand.
   */
  lemma EventFilePathCases(root: string, event: HttpRequest)
    ensures var p, r, m := event.path, EventFilePath(root, event), AdminSegmentMatch(event.path);
      && (MatchesLoginPattern(p) ==> r == root + "/web/wp/" + p[1..])
      && (!MatchesLoginPattern(p) && m.At? ==> m.index < |p| && r == root + "/web/wp/" + p[m.index + 1..])
      && (NoWordPressPattern(p) <==> !MatchesLoginPattern(p) && m.NotFound?)
      && (NoWordPressPattern(p) && StartsWithWpDirectory(p) ==> r == root + "/web/" + p)
      && (NoWordPressPattern(p) && !StartsWithWpDirectory(p) ==> r == root + "/" + LeftTrim(p, '/'))
  {
    var p, m := event.path, AdminSegmentMatch(event.path);
    if MatchesLoginPattern(p) {
      LoginRule(root, event);
    } else if m.At? {
      AdminSegmentShape(p, m.index);
      AdminRule(root, event, m.index);
    } else if StartsWithWpDirectory(p) {
      RemapRule(root, event);
    } else {
      PlainRule(root, event);
    }
  }

  // ---------------------------------------------------------------------------
  // getScriptFilePath
  // ---------------------------------------------------------------------------

  /** The `index.php` inside a directory path, as `rtrim($filePath, '/').'/index.php'` writes it. */
  function DirectoryIndex(path: string): string
  {
    RightTrim(path, '/') + "/index.php"
  }

  /**
   * The script the handler runs: the event's file, or the `index.php` inside
   * it when it is a directory; when that does not exist, `web/index.php`.
   */
  function ScriptFilePath(fs: FileSystem, root: string, event: HttpRequest): (r: string)
    ensures fs.FileExists(r) || r == root + FallbackScript
    ensures var p := EventFilePath(root, event);
      && (fs.IsDir(p) && fs.FileExists(DirectoryIndex(p)) ==> r == DirectoryIndex(p))
      && (!fs.IsDir(p) && fs.FileExists(p) ==> r == p)
      && (r == p || r == DirectoryIndex(p) || r == root + FallbackScript)
  {
    var filePath := EventFilePath(root, event);
    var candidate := if fs.IsDir(filePath) then DirectoryIndex(filePath) else filePath;
    if fs.FileExists(candidate) then candidate else root + FallbackScript
  }

  /** A directory without an `index.php` (or a missing file) falls back to `web/index.php`. */
  lemma MissingScriptFallsBack(fs: FileSystem, root: string, event: HttpRequest)
    requires var p := EventFilePath(root, event);
      if fs.IsDir(p) then !fs.FileExists(DirectoryIndex(p)) else !fs.FileExists(p)
    ensures ScriptFilePath(fs, root, event) == root + FallbackScript
  {
  }

  // ---------------------------------------------------------------------------
  // The layouts of the unit tests, under any application root
  // ---------------------------------------------------------------------------

  /** Claimed with `web/app/`, `config/application.php` and `web/wp-config.php` present. */
  lemma CanHandleWithBothConfigs(root: string, event: HttpRequest)
    ensures CanHandle(FileSystem({root + ApplicationConfigFile, root + WpConfigFile}, {root + AppDirectory}), root, event)
  {
  }

  /** Claimed with the Bedrock autoloader present, whatever else is missing. */
  lemma CanHandleWithAutoloader(root: string, event: HttpRequest)
    ensures CanHandle(FileSystem({root + AutoloaderFile}, {}), root, event)
  {
  }

  /** Not claimed when `config/application.php` is missing. */
  lemma CannotHandleWithoutApplicationConfig(root: string, event: HttpRequest)
    ensures !CanHandle(FileSystem({root + WpConfigFile}, {root + AppDirectory}), root, event)
  {
    assert |root + AutoloaderFile| != |root + WpConfigFile|;
    assert |root + ApplicationConfigFile| != |root + WpConfigFile|;
  }

  /** Not claimed when `web/wp-config.php` is missing. */
  lemma CannotHandleWithoutWpConfig(root: string, event: HttpRequest)
    ensures !CanHandle(FileSystem({root + ApplicationConfigFile}, {root + AppDirectory}), root, event)
  {
    assert |root + AutoloaderFile| != |root + ApplicationConfigFile|;
    assert |root + WpConfigFile| != |root + ApplicationConfigFile|;
    assert |root + AutoloaderFile| != |root + AppDirectory|;
    assert |root + WpConfigFile| != |root + AppDirectory|;
  }

  /** Not claimed when none of the files is there, whatever the directories. */
  lemma CannotHandleWithoutLayoutFiles(root: string, directories: set<string>, event: HttpRequest)
    requires root + AutoloaderFile !in directories
    requires root + WpConfigFile !in directories
    ensures !CanHandle(FileSystem({}, directories), root, event)
  {
  }

  // ---------------------------------------------------------------------------
  // The request paths of the unit tests, with the site and file names left open
  // ---------------------------------------------------------------------------

  /** A path `/wp-` + name + `php` starts with `/wp-`. */
  lemma LoginPathPrefix(path: string, name: string)
    requires path == "/wp-" + name + "php"
    ensures path[..4] == "/wp-"
  {
    InfixOfConcat([], "/wp-", name + "php");
    assert path == [] + "/wp-" + (name + "php");
  }

  /** A path `/wp-` + name + `php` ends in `php`. */
  lemma LoginPathSuffix(path: string, name: string)
    requires path == "/wp-" + name + "php"
    ensures path[|path| - 3..] == "php"
  {
    InfixOfConcat("/wp-" + name, "php", []);
    assert path == "/wp-" + name + "php" + [];
  }

  /** Without its first slash, a path `/wp-` + name + `php` is `wp-` + name + `php`. */
  lemma LoginPathGroup(path: string, name: string)
    requires path == "/wp-" + name + "php"
    ensures path[1..] == "wp-" + name + "php"
  {
    assert path == "/" + ("wp-" + name + "php");
  }

  /** How the pieces of a path rewritten into `web/wp/wp-…php` concatenate. */
  lemma JoinLoginLiterals(root: string, name: string)
    ensures root + "/web/wp/" + ("wp-" + name + "php") == root + "/web/wp/wp-" + name + "php"
  {
  }

  /** A `/wp-….php` request such as `/wp-login.php` runs the file of that name under `web/wp/`. */
  lemma LoginScriptRewritten(root: string, name: string, event: HttpRequest)
    requires |name| >= 1 && event.path == "/wp-" + name + "php"
    ensures EventFilePath(root, event) == root + "/web/wp/wp-" + name + "php"
  {
    LoginPathPrefix(event.path, name);
    LoginPathSuffix(event.path, name);
    LoginRule(root, event);
    LoginPathGroup(event.path, name);
    JoinLoginLiterals(root, name);
  }

  /** A path `/wp-admin` + rest has an admin segment at its first character. */
  lemma AdminAtRootSegment(path: string, rest: string)
    requires path == "/wp-admin" + rest
    ensures AdminSegmentAt(path, 0)
  {
    InfixOfConcat([], "/wp-admin", rest);
    assert path == [] + "/wp-admin" + rest;
  }

  /** Without its first slash, a path `/wp-admin` + rest is `wp-admin` + rest. */
  lemma AdminAtRootGroup(path: string, rest: string)
    requires path == "/wp-admin" + rest
    ensures path[1..] == "wp-admin" + rest
  {
    assert path == "/" + ("wp-admin" + rest);
  }

  /** How the pieces of a path rewritten into `web/wp/wp-admin` concatenate. */
  lemma JoinAdminLiterals(root: string, rest: string)
    ensures root + "/web/wp/" + ("wp-admin" + rest) == root + "/web/wp/wp-admin" + rest
  {
  }

  /** A request below `/wp-admin`, such as `/wp-admin/`, is served from `web/wp/wp-admin`. */
  lemma AdminAtRootRewritten(root: string, rest: string, event: HttpRequest)
    requires event.path == "/wp-admin" + rest
    ensures EventFilePath(root, event) == root + "/web/wp/wp-admin" + rest
  {
    AdminAtRootSegment(event.path, rest);
    AdminAtRootGroup(event.path, rest);
    if MatchesLoginPattern(event.path) {
      LoginRule(root, event);
    } else {
      AdminRule(root, event, 0);
    }
    JoinAdminLiterals(root, rest);
  }

  /**
   * A site name of a subdirectory multisite: at least one character, no
   * slash, and not itself beginning with `wp-` (such a "site" would be a
   * WordPress path).
   */
  predicate IsSiteName(site: string)
  {
    && |site| >= 1
    && (forall k :: 0 <= k < |site| ==> site[k] != '/')
    && !(|site| >= 3 && site[..3] == "wp-")
  }

  /** A site name does not start with a slash. */
  lemma SiteNameStart(site: string)
    requires IsSiteName(site)
    ensures site[0] != '/'
  {
  }

  /** In `/<site>/…` the characters after the first slash do not spell `wp-`. */
  lemma SiteDoesNotSpellWp(path: string, site: string, rest: string)
    requires IsSiteName(site)
    requires |rest| >= 3 && rest[0] == '/' && path == "/" + site + rest
    ensures !(path[1] == 'w' && path[2] == 'p' && path[3] == '-')
  {
    var n := |site|;
    assert path[n + 1] == rest[0];
    if n >= 3 {
      assert path[1] == site[0] && path[2] == site[1] && path[3] == site[2];
      assert site[..3][0] == site[0] && site[..3][1] == site[1] && site[..3][2] == site[2];
    }
  }

  /**
   * Neither pattern can start inside the site part of `/<site>/…`: not at the
   * first slash, since the site does not begin with `wp-`, and not later,
   * since the site has no slash.
   */
  lemma NoPatternInSite(path: string, site: string, rest: string)
    requires IsSiteName(site)
    requires |rest| >= 3 && rest[0] == '/' && path == "/" + site + rest
    ensures !MatchesLoginPattern(path)
    ensures !StartsWithWpDirectory(path)
    ensures forall j: nat :: j <= |site| ==> !AdminSegmentAt(path, j)
  {
    SiteDoesNotSpellWp(path, site, rest);
    assert path[..4][1] == path[1] && path[..4][2] == path[2] && path[..4][3] == path[3];
    assert path[..3][0] == path[0];
    forall j: nat | j <= |site|
      ensures !AdminSegmentAt(path, j)
    {
      AdminSegmentShape(path, j);
      if j > 0 {
        assert path[j] == site[j - 1];
      }
    }
  }

  /** The shape of a path `/<site>/wp-admin` + rest. */
  lemma SubdirectoryAdminShape(path: string, site: string, rest: string)
    requires path == "/" + site + "/wp-admin" + rest
    ensures AdminSegmentAt(path, |site| + 1)
    ensures path[|site| + 2..] == "wp-admin" + rest
  {
    InfixOfConcat("/" + site, "/wp-admin", rest);
    assert path == ("/" + site + "/") + ("wp-admin" + rest);
  }

  /**
   * A subdirectory multisite request `/<site>/wp-admin…` such as
   * `/subdirectory/wp-admin/` drops the site and is served from `web/wp/wp-admin`.
   */
  lemma SubdirectoryAdminRewritten(root: string, site: string, rest: string, event: HttpRequest)
    requires IsSiteName(site)
    requires event.path == "/" + site + "/wp-admin" + rest
    ensures EventFilePath(root, event) == root + "/web/wp/wp-admin" + rest
  {
    NoPatternInSite(event.path, site, "/wp-admin" + rest);
    SubdirectoryAdminShape(event.path, site, rest);
    AdminRule(root, event, |site| + 1);
    JoinAdminLiterals(root, rest);
  }

  /** After the site name, `/wp-login.php` holds no admin segment. */
  lemma NoAdminSegmentInLogin(path: string, site: string)
    requires path == "/" + site + "/wp-login.php"
    ensures forall j: nat :: j > |site| ==> !AdminSegmentAt(path, j)
  {
    var n := |site|;
    forall j: nat | j > n
      ensures !AdminSegmentAt(path, j)
    {
      AdminSegmentShape(path, j);
      if j == n + 1 {
        assert path[j + 4] == 'l';
      } else if j <= n + 5 {
        var k := j - n - 1;
        assert k == 1 || k == 2 || k == 3 || k == 4;
        assert path[j] == "/wp-login.php"[k];
      }
    }
  }

  /** `ltrim` of `/<site>/wp-login.php` drops the one leading slash. */
  lemma SubdirectoryLoginTrim(path: string, site: string)
    requires |site| >= 1 && site[0] != '/'
    requires path == "/" + site + "/wp-login.php"
    ensures LeftTrim(path, '/') == site + "/wp-login.php"
  {
    assert path[1] == site[0];
    LeftTrimOneSlash(path);
    assert path == "/" + (site + "/wp-login.php");
  }

  /**
   * A subdirectory multisite login `/<site>/wp-login.php`, such as
   * `/subdirectory/wp-login.php`, matches neither pattern: it is looked up
   * under the root as it stands, not under `web/wp/`.
   */
  lemma SubdirectoryLoginNotRewritten(root: string, site: string, event: HttpRequest)
    requires IsSiteName(site)
    requires event.path == "/" + site + "/wp-login.php"
    ensures EventFilePath(root, event) == root + "/" + site + "/wp-login.php"
  {
    SiteNameStart(site);
    NoPatternInSite(event.path, site, "/wp-login.php");
    NoAdminSegmentInLogin(event.path, site);
    PlainRule(root, event);
    SubdirectoryLoginTrim(event.path, site);
  }

  /**
   * So with no `<site>/wp-login.php` file under the root, the subdirectory
   * login is served by `web/index.php`, not by WordPress's login script.
   */
  lemma SubdirectoryLoginFallsBack(fs: FileSystem, root: string, site: string, event: HttpRequest)
    requires IsSiteName(site)
    requires event.path == "/" + site + "/wp-login.php"
    requires !fs.FileExists(root + "/" + site + "/wp-login.php")
    ensures ScriptFilePath(fs, root, event) == root + FallbackScript
  {
    SubdirectoryLoginNotRewritten(root, site, event);
    DirectoriesExist(fs, root + "/" + site + "/wp-login.php");
  }

  /** The site name of the multisite tests. */
  lemma SubdirectoryIsSiteName()
    ensures IsSiteName("subdirectory")
  {
    assert "subdirectory"[..3][0] == 's';
  }

  // ---------------------------------------------------------------------------
  // The login pattern the subdirectory multisite tests call for
  // ---------------------------------------------------------------------------

  /**
   * `\/(wp-.*.php)$` without the start anchor: a `/wp-` at position `i`, at
   * least one character after it, and the path ending in `php`.
   */
  predicate LoginSegmentAt(path: string, i: nat)
  {
    i + 8 <= |path| && StartsAt(path, i, "/wp-") && path[|path| - 3..] == "php"
  }

  /** The leftmost position where the unanchored login pattern matches. */
  function IntendedLoginMatch(path: string): (r: Position)
    ensures r.At? ==> LoginSegmentAt(path, r.index) && forall j: nat :: j < r.index ==> !LoginSegmentAt(path, j)
    ensures r.NotFound? ==> forall j: nat :: !LoginSegmentAt(path, j)
  {
    var at := (i: nat) => LoginSegmentAt(path, i);
    var r := FirstIndex(at, 0, |path|);
    assert forall j: nat :: at(j) == LoginSegmentAt(path, j);
    r
  }

  /** Line 42 with the login pattern unanchored; the admin pattern is unchanged. */
  function IntendedWordPressMatch(path: string): LineMatch
  {
    match IntendedLoginMatch(path)
    case At(i) => Matched(path[i + 1..])
    case NotFound =>
      match AdminSegmentMatch(path)
      case At(i) => Matched(path[i + 1..])
      case NotFound => NoMatch
  }

  function IntendedRewriteWordPressPath(path: string): string
  {
    match IntendedWordPressMatch(path)
    case Matched(group) => if !IsEmpty(group) then "wp/" + LeftTrim(group, '/') else path
    case NoMatch => path
  }

  /** `getEventFilePath` with the unanchored login pattern. */
  function IntendedEventFilePath(root: string, event: HttpRequest): string
  {
    root + "/" + LeftTrim(RemapWpDirectory(IntendedRewriteWordPressPath(event.path)), '/')
  }

  /** At the first character the unanchored pattern is the anchored one. */
  lemma LoginSegmentAtStart(path: string)
    ensures LoginSegmentAt(path, 0) <==> MatchesLoginPattern(path)
  {
    if |path| >= 4 {
      assert path[0..4] == path[..4];
    }
  }

  /**
   * The corrected rule changes nothing for a path with no `/wp-…php` ending
   * beginning after its first character: all paths of the root-level tests.
   */
  lemma IntendedAgreesWithoutLaterLogin(root: string, event: HttpRequest)
    requires forall j: nat :: 0 < j ==> !LoginSegmentAt(event.path, j)
    ensures IntendedEventFilePath(root, event) == EventFilePath(root, event)
  {
    IntendedLoginMatchAtStart(event.path);
    IntendedAgreesWithAnchoredMatch(root, event);
  }

  /** Where the two login patterns match alike, the two rewrites agree. */
  lemma IntendedAgreesWithAnchoredMatch(root: string, event: HttpRequest)
    requires IntendedLoginMatch(event.path) == if MatchesLoginPattern(event.path) then At(0) else NotFound
    ensures IntendedEventFilePath(root, event) == EventFilePath(root, event)
  {
    var path := event.path;
    if MatchesLoginPattern(path) {
      assert IntendedWordPressMatch(path) == Matched(path[1..]);
    } else {
      assert IntendedWordPressMatch(path) == WordPressMatch(path);
    }
    assert IntendedRewriteWordPressPath(path) == RewriteWordPressPath(path);
  }

  /** Without a later `/wp-…php` ending, the unanchored pattern matches at the start or not at all. */
  lemma IntendedLoginMatchAtStart(path: string)
    requires forall j: nat :: 0 < j ==> !LoginSegmentAt(path, j)
    ensures IntendedLoginMatch(path) == if MatchesLoginPattern(path) then At(0) else NotFound
  {
    LoginSegmentAtStart(path);
  }

  /** In `/<site>/wp-login.php` the unanchored login pattern matches right after the site. */
  lemma SubdirectoryLoginSegment(path: string, site: string)
    requires path == "/" + site + "/wp-login.php"
    ensures LoginSegmentAt(path, |site| + 1)
  {
    InfixOfConcat("/" + site, "/wp-", "login.php");
    assert path == "/" + site + "/wp-" + "login.php";
    InfixOfConcat("/" + site + "/wp-login.", "php", []);
    assert path == "/" + site + "/wp-login." + "php" + [];
  }

  /** What follows the site's slash in `/<site>/wp-login.php`. */
  lemma SubdirectoryLoginGroup(path: string, site: string)
    requires path == "/" + site + "/wp-login.php"
    ensures path[|site| + 2..] == "wp-login.php"
  {
    assert path == ("/" + site + "/") + "wp-login.php";
  }

  /** No `/wp-` starts inside the site part of `/<site>/wp-login.php`. */
  lemma NoLoginSegmentInSite(path: string, site: string)
    requires IsSiteName(site)
    requires path == "/" + site + "/wp-login.php"
    ensures forall j: nat :: j <= |site| ==> !LoginSegmentAt(path, j)
  {
    SiteDoesNotSpellWp(path, site, "/wp-login.php");
    forall j: nat | j <= |site|
      ensures !LoginSegmentAt(path, j)
    {
      LoginSegmentShape(path, j);
      if j > 0 {
        assert path[j] == site[j - 1];
      }
    }
  }

  /** Wherever the unanchored login pattern matches, `/wp-` stands there. */
  lemma LoginSegmentShape(path: string, i: nat)
    ensures LoginSegmentAt(path, i) ==>
      path[i] == '/' && path[i + 1] == 'w' && path[i + 2] == 'p' && path[i + 3] == '-'
  {
    if i + 8 <= |path| && StartsAt(path, i, "/wp-") {
      SliceChars(path, i, 8);
      assert path[i..i + 8][..4] == path[i..i + 4];
    }
  }

  /** How the pieces of the rewritten subdirectory login concatenate. */
  lemma JoinSubdirectoryLogin(root: string)
    ensures root + "/web/wp/" + "wp-login.php" == root + "/web/wp/wp-login.php"
  {
  }

  /**
   * With the unanchored pattern, the subdirectory multisite login
   * `/<site>/wp-login.php` is served by WordPress's `web/wp/wp-login.php`.
   */
  lemma IntendedSubdirectoryLoginRewritten(root: string, site: string, event: HttpRequest)
    requires IsSiteName(site)
    requires event.path == "/" + site + "/wp-login.php"
    ensures IntendedEventFilePath(root, event) == root + "/web/wp/wp-login.php"
  {
    var path, n := event.path, |site|;
    SubdirectoryLoginSegment(path, site);
    NoLoginSegmentInSite(path, site);
    assert IntendedLoginMatch(path) == At(n + 1);
    SubdirectoryLoginGroup(path, site);
    var group := path[n + 2..];
    assert group[0] == 'w';
    assert IntendedRewriteWordPressPath(path) == "wp/" + LeftTrim(group, '/') by {
      assert IntendedWordPressMatch(path) == Matched(group);
      assert !IsEmpty(group);
    }
    JoinRewritten(root, group);
    JoinSubdirectoryLogin(root);
  }
}
