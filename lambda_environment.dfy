/**
 * What the event handlers see of the world: the invocation event they are
 * asked about, and the application's files.
 */
module LambdaEnvironment {

  /**
   * A Lambda invocation event. Every event carries the invocation id; an
   * HTTP request event also carries the request path.
   */
  datatype InvocationEvent =
    | HttpRequestEvent(id: string, path: string)
    | OtherEvent(id: string)

  /**
   * The parent handler's test, which both layout handlers start from: only
   * HTTP request events are served by a PHP-FPM handler.
   */
  predicate IsHttpRequestEvent(event: InvocationEvent)
  {
    event.HttpRequestEvent?
  }

  /** The handlers' methods that take an `HttpRequestEvent` are only given HTTP events. */
  type HttpRequest = e: InvocationEvent | e.HttpRequestEvent? witness HttpRequestEvent("", "")

  /**
   * The files under the application root, as the operating system answers
   * `file_exists` and `is_dir` for each path string probed. Paths are compared
   * as strings: a trailing or doubled slash makes a different path.
   */
  datatype FileSystem = FileSystem(regularFiles: set<string>, directories: set<string>)
  {
    /** `file_exists($path)`, which is also true for directories. */
    predicate FileExists(path: string)
    {
      path in regularFiles || path in directories
    }

    /** `is_dir($path)`. */
    predicate IsDir(path: string)
    {
      path in directories
    }
  }

  /** Every directory exists, as `file_exists` reports it. */
  lemma DirectoriesExist(fs: FileSystem, path: string)
    ensures fs.IsDir(path) ==> fs.FileExists(path)
  {
  }
}
