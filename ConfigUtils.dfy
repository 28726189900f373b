/** Rewriting the engine's per-application data path so that every
    embedding application shares the Arteranos directory. */
module ConfigUtils {
  import opened Types

  const ServerDirName := "willneedit/Arteranos_DedicatedServer"
  const ClientDirName := "willneedit/Arteranos"

  /** The application settings the rewrite reads: company and product
      name, and the process-wide "dedicated server" switch. */
  datatype Application = Application(companyName: string, productName: string, unityServer: bool)

  function SubdirName(app: Application): string
  {
    app.companyName + "/" + app.productName
  }

  /** `isServer ?? Unity_Server ? server : client`: the null-coalescing
      operator binds tighter than the conditional. */
  function DestName(isServer: NullableBool, app: Application): (d: string)
    ensures isServer == True ==> d == ServerDirName
    ensures isServer == False ==> d == ClientDirName
    ensures isServer == Null ==> d == if app.unityServer then ServerDirName else ClientDirName
  {
    if isServer.Coalesce(app.unityServer) then ServerDirName else ClientDirName
  }

  /** Drops as many trailing characters as "company/product" has, whatever
      they are, and appends the Arteranos directory; a path shorter than
      that makes the range slice throw. */
  function GetPathWithArteranos(providedPathName: string, isServer: NullableBool, app: Application): (r: Result<string>)
    ensures r.Ok? <==> |providedPathName| >= |app.companyName| + 1 + |app.productName|
    ensures r.Err? ==> r.error == ArgumentOutOfRange
    ensures r.Ok? ==> |r.value| == |providedPathName| - |SubdirName(app)| + |DestName(isServer, app)|
  {
    var subdirName := SubdirName(app);
    var destName := DestName(isServer, app);
    if |subdirName| > |providedPathName| then Err(ArgumentOutOfRange)
    else Ok(providedPathName[..|providedPathName| - |subdirName|] + destName)
  }

  /** The intended use: a path ending in "company/product" gets that
      ending replaced by the Arteranos directory. */
  lemma ReplacesSubdir(base: string, isServer: NullableBool, app: Application)
    ensures GetPathWithArteranos(base + SubdirName(app), isServer, app) == Ok(base + DestName(isServer, app))
  {
    assert (base + SubdirName(app))[..|base|] == base;
  }

  /** The dropped characters are never inspected: two paths that agree
      except in their last |company/product| characters give the same result. */
  lemma {:induction false} DroppedSuffixUnchecked(p: string, q: string, isServer: NullableBool, app: Application)
    requires |p| == |q| >= |SubdirName(app)|
    requires p[..|p| - |SubdirName(app)|] == q[..|q| - |SubdirName(app)|]
    ensures GetPathWithArteranos(p, isServer, app) == GetPathWithArteranos(q, isServer, app)
  {
  }

  /** `persistentDataPath`: the engine's data path, rewritten with the
      process-wide switch. */
  function PersistentDataPath(enginePath: string, app: Application): (r: Result<string>)
    ensures r.Ok? ==> var d := if app.unityServer then ServerDirName else ClientDirName;
                      |r.value| >= |d| && r.value[|r.value| - |d|..] == d
  {
    GetPathWithArteranos(enginePath, Null, app)
  }
}
