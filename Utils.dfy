/** Asset-bundle directory names per platform, and the counting loop that
    copies a stream while reporting progress. */
module Utils {
  import opened Types

  /** The engine's runtime platforms. */
  datatype RuntimePlatform =
    | OSXEditor | OSXPlayer | OSXServer
    | WindowsPlayer | WindowsEditor | WindowsServer
    | LinuxPlayer | LinuxEditor | LinuxServer
    | Android | IPhonePlayer | WebGLPlayer
    | WSAPlayerX86 | WSAPlayerX64 | WSAPlayerARM
    | PS4 | PS5 | XboxOne | GameCoreXboxSeries | GameCoreXboxOne | Switch | tvOS | VisionOS
    | Lumin | Stadia | CloudRendering
    | EmbeddedLinuxArm64 | EmbeddedLinuxArm32 | EmbeddedLinuxX64 | EmbeddedLinuxX86
    | QNXArm32 | QNXArm64 | QNXX64 | QNXX86

  /** The asset-bundle directory for a platform: the three macOS platforms
      share "Mac", the three Linux ones "Linux", Android has its own, and
      everything else falls back to "Windows". */
  function ArchitectureDirName(p: RuntimePlatform): (name: string)
    ensures name == "Mac" <==> p.OSXEditor? || p.OSXPlayer? || p.OSXServer?
    ensures name == "Linux" <==> p.LinuxEditor? || p.LinuxPlayer? || p.LinuxServer?
    ensures name == "Android" <==> p.Android?
    ensures name == "Windows" <==> !(p.OSXEditor? || p.OSXPlayer? || p.OSXServer? || p.LinuxEditor?
                                     || p.LinuxPlayer? || p.LinuxServer? || p.Android?)
  {
    match p
    case OSXEditor | OSXPlayer | OSXServer => "Mac"
    case LinuxEditor | LinuxPlayer | LinuxServer => "Linux"
    case Android => "Android"
    case _ => "Windows"
  }

  // ---------------------------------------------------------------
  // Copying with progress

  /** The copy buffer: 512 KiB, also the progress-report granularity. */
  const BufferSize := 512 * 1024

  /** The bytes the loop passes on from read `i` onward: read after read,
      up to the first empty one. */
  function Copied(chunks: seq<seq<byte>>, i: nat): seq<byte>
    requires i <= |chunks|
    decreases |chunks| - i
  {
    if i == |chunks| || chunks[i] == [] then [] else chunks[i] + Copied(chunks, i + 1)
  }

  /** The running totals reported from read `i` onward, given the bytes
      counted so far and the last total reported: a report is due once a
      whole buffer's worth has arrived since the previous one. */
  function Reports(chunks: seq<seq<byte>>, i: nat, total: int, last: int): seq<int>
    requires i <= |chunks|
    decreases |chunks| - i
  {
    if i == |chunks| || chunks[i] == [] then []
    else
      var t := total + |chunks[i]|;
      if t >= last + BufferSize then [t] + Reports(chunks, i + 1, t, t)
      else Reports(chunks, i + 1, t, last)
  }

  /** Report totals as the loop produces them: the first lies between one
      and two buffers, and each later one between one and two buffers past
      the one before. */
  predicate Spaced(reports: seq<int>)
  {
    && (|reports| > 0 ==> BufferSize <= reports[0] < 2 * BufferSize)
    && (forall j :: 0 < j < |reports| ==> reports[j - 1] + BufferSize <= reports[j] < reports[j - 1] + 2 * BufferSize)
  }

  function LastReport(reports: seq<int>): int
  {
    if reports == [] then 0 else reports[|reports| - 1]
  }

  lemma SpacedAppend(reports: seq<int>, t: int)
    requires Spaced(reports)
    requires LastReport(reports) + BufferSize <= t < LastReport(reports) + 2 * BufferSize
    ensures Spaced(reports + [t]) && LastReport(reports + [t]) == t
  {
  }

  /** Spaced totals increase, so none exceeds the last. */
  lemma {:induction false} SpacedBounded(reports: seq<int>)
    requires Spaced(reports)
    ensures forall j :: 0 <= j < |reports| ==> reports[j] <= LastReport(reports)
    decreases |reports|
  {
    if |reports| > 1 {
      var init := reports[..|reports| - 1];
      assert Spaced(init);
      SpacedBounded(init);
      assert forall j :: 0 <= j < |init| ==> reports[j] == init[j];
    }
  }

  /** What holds after the first `i` reads: the bytes written and the
      reports made are a prefix of what the whole copy produces, the count
      is the number of bytes written, and less than a buffer's worth has
      arrived since the last report. */
  ghost predicate CopyInv(chunks: seq<seq<byte>>, i: nat, written: seq<byte>, reports: seq<int>, total: int, last: int)
  {
    && i <= |chunks|
    && written + Copied(chunks, i) == Copied(chunks, 0)
    && reports + Reports(chunks, i, total, last) == Reports(chunks, 0, 0, 0)
    && total == |written|
    && last == LastReport(reports)
    && 0 <= last <= total < last + BufferSize
    && Spaced(reports)
  }

  /** One more non-empty read, at most a buffer long, keeps `CopyInv`. */
  lemma CopyStep(chunks: seq<seq<byte>>, i: nat, written: seq<byte>, reports: seq<int>, total: int, last: int)
    requires CopyInv(chunks, i, written, reports, total, last)
    requires i < |chunks| && chunks[i] != [] && |chunks[i]| <= BufferSize
    ensures var t := total + |chunks[i]|;
            if t >= last + BufferSize then CopyInv(chunks, i + 1, written + chunks[i], reports + [t], t, t)
            else CopyInv(chunks, i + 1, written + chunks[i], reports, t, last)
  {
    assert (written + chunks[i]) + Copied(chunks, i + 1) == written + (chunks[i] + Copied(chunks, i + 1));
    var t := total + |chunks[i]|;
    if t >= last + BufferSize {
      assert (reports + [t]) + Reports(chunks, i + 1, t, t) == reports + ([t] + Reports(chunks, i + 1, t, t));
      SpacedAppend(reports, t);
    }
  }

  /** The copy loop of `CopyWithProgress`. `chunks` are the successive
      results of reading into the buffer (so none is longer than it); the
      loop ends at the first empty read or when the chunks run out. It
      returns what it wrote and the totals passed to the progress callback. */
  method CopyWithProgress(chunks: seq<seq<byte>>) returns (written: seq<byte>, reports: seq<int>)
    requires forall i :: 0 <= i < |chunks| ==> |chunks[i]| <= BufferSize
    ensures written == Copied(chunks, 0)
    ensures reports == Reports(chunks, 0, 0, 0)
    ensures Spaced(reports)
    ensures forall j :: 0 <= j < |reports| ==> reports[j] <= |written|
    ensures |written| < LastReport(reports) + BufferSize
  {
    var totalBytes := 0;
    var lastreported := 0;
    written, reports := [], [];
    var i := 0;
    while i < |chunks|
      invariant CopyInv(chunks, i, written, reports, totalBytes, lastreported)
    {
      var chunk := chunks[i];
      if |chunk| == 0 {
        break;
      }
      CopyStep(chunks, i, written, reports, totalBytes, lastreported);
      totalBytes := totalBytes + |chunk|;
      if totalBytes >= lastreported + BufferSize {
        reports := reports + [totalBytes];
        lastreported := totalBytes;
      }
      written := written + chunk;
      i := i + 1;
    }
    SpacedBounded(reports);
  }
}
