/** The detection dashboard: choosing an image (with its MIME-type test),
    removing it, running the simulated detection and its completion, the
    status notice, and the Run Detection button's disabled condition. */
module Dashboard {
  import opened Maybe

  /** A chosen file, by the two properties the page reads. */
  datatype File = File(name: string, mimeType: string)

  datatype StatusKind = Success | Error | Warning | Info

  /** The status notice: whether it shows, its kind, title and message. */
  datatype Status = Status(show: bool, kind: StatusKind, title: string, message: string)

  const InitialStatus: Status := Status(false, Info, "", "")
  const InvalidFileStatus: Status :=
    Status(true, Error, "Invalid File", "Please select an image file (JPEG, PNG, etc.)")
  const NoImageStatus: Status :=
    Status(true, Warning, "No Image Selected", "Please select an image to analyze.")
  const ProcessingStatus: Status :=
    Status(true, Info, "Processing", "Analyzing image for potential hazards...")
  const CompleteStatus: Status :=
    Status(true, Success, "Analysis Complete",
      "Hazard detection completed successfully. Fire hazard detected with 78% confidence.")

  // ---------------------------------------------------------------------------
  // The MIME-type test `file.type.match('image.*')`

  /** The literal part of the pattern. */
  const ImageWord: string := "image"

  /** `s` holds the word "image" at position `i`. */
  ghost predicate ImageAt(s: string, i: int)
  {
    0 <= i && i + |ImageWord| <= |s| && s[i..i + |ImageWord|] == ImageWord
  }

  /** Characters the regular-expression `.` does not match. */
  predicate IsLineTerminator(c: char)
  {
    c == '\n' || c == '\r' || c == '\U{2028}' || c == '\U{2029}'
  }

  /** The unanchored pattern `image.*` matches `s[i..j]`: the word "image"
      followed by any run of non-line-terminators. */
  ghost predicate PatternMatchesAt(s: string, i: int, j: int)
  {
    && ImageAt(s, i)
    && i + |ImageWord| <= j <= |s|
    && forall k :: i + |ImageWord| <= k < j ==> !IsLineTerminator(s[k])
  }

  /** `String.prototype.match` with the pattern finds a match somewhere in `s`. */
  ghost predicate PatternMatches(s: string)
  {
    exists i, j :: PatternMatchesAt(s, i, j)
  }

  /** Whether the word "image" occurs anywhere in `s`. */
  function ContainsImage(s: string): (found: bool)
    ensures found <==> exists i :: ImageAt(s, i)
    decreases |s|
  {
    if |s| < |ImageWord| then
      assert forall i :: !ImageAt(s, i);
      false
    else if s[..|ImageWord|] == ImageWord then
      assert ImageAt(s, 0);
      true
    else
      var rest := ContainsImage(s[1..]);
      assert forall i :: ImageAt(s, i) && i >= 1 ==> ImageAt(s[1..], i - 1) by {
        forall i | ImageAt(s, i) && i >= 1 ensures ImageAt(s[1..], i - 1) {
          assert s[1..][i - 1..i - 1 + |ImageWord|] == s[i..i + |ImageWord|];
        }
      }
      assert forall i :: ImageAt(s[1..], i) ==> ImageAt(s, i + 1) by {
        forall i | ImageAt(s[1..], i) ensures ImageAt(s, i + 1) {
          assert s[1..][i..i + |ImageWord|] == s[i + 1..i + 1 + |ImageWord|];
        }
      }
      rest
  }

  /** The pattern test accepts a MIME type exactly when "image" occurs in it
      anywhere: the trailing `.*` may match nothing, and nothing anchors the
      pattern to the start. */
  lemma PatternIsSubstringTest(s: string)
    ensures PatternMatches(s) <==> ContainsImage(s)
  {
    if ContainsImage(s) {
      var i :| ImageAt(s, i);
      assert PatternMatchesAt(s, i, i + |ImageWord|);
    }
  }

  /** Whether the page accepts a chosen file. */
  function AcceptsFile(f: File): (ok: bool)
    ensures ok <==> PatternMatches(f.mimeType)
  {
    PatternIsSubstringTest(f.mimeType);
    ContainsImage(f.mimeType)
  }

  /** Some MIME types and the verdict. */
  lemma AcceptanceExamples()
    ensures AcceptsFile(File("a.png", "image/png"))
    ensures AcceptsFile(File("a.svg", "image/svg+xml"))
    ensures AcceptsFile(File("x", "application/x-image"))
    ensures !AcceptsFile(File("a.PNG", "IMAGE/PNG"))
    ensures !AcceptsFile(File("notes.txt", "text/plain"))
    ensures !AcceptsFile(File("blob", ""))
  {
    assert ImageAt("image/png", 0);
    assert ImageAt("image/svg+xml", 0);
    assert ImageAt("application/x-image", 14);
    forall i | 0 <= i && i + |ImageWord| <= |"IMAGE/PNG"| ensures !ImageAt("IMAGE/PNG", i) {
      assert "IMAGE/PNG"[i..i + |ImageWord|][0] == "IMAGE/PNG"[i];
    }
    forall i | 0 <= i && i + |ImageWord| <= |"text/plain"| ensures !ImageAt("text/plain", i) {
      assert "text/plain"[i..i + |ImageWord|][0] == "text/plain"[i];
    }
  }

  // ---------------------------------------------------------------------------
  // The page state

  class DashboardPage {
    var selectedFile: Option<File>
    var preview: Option<string>
    var isLoading: bool
    var result: Option<string>
    var status: Status
    /** Files whose preview read has started and not yet loaded. */
    var pendingReads: seq<File>
    /** Detection timers not yet fired, oldest first, each with the preview
        its callback captured when the detection started. */
    var pendingDetections: seq<Option<string>>

    /** A running detection always has its timer pending. */
    ghost predicate Valid()
      reads this
    {
      isLoading ==> pendingDetections != []
    }

    constructor ()
      ensures Valid()
      ensures selectedFile == None && preview == None && !isLoading && result == None
      ensures status == InitialStatus && pendingReads == [] && pendingDetections == []
    {
      selectedFile := None;
      preview := None;
      isLoading := false;
      result := None;
      status := InitialStatus;
      pendingReads := [];
      pendingDetections := [];
    }

    /** The `disabled` condition of the Run Detection button: enabled exactly
        when a file is chosen and no detection is running. A page with a file
        chosen keeps the button disabled only while a detection timer is
        pending, and that timer's firing enables it again. */
    function RunDetectionDisabled(): (disabled: bool)
      reads this
      requires Valid()
      ensures !disabled <==> selectedFile.Some? && !isLoading
      ensures disabled && selectedFile.Some? ==> pendingDetections != []
    {
      selectedFile.None? || isLoading
    }

    /** `handleFileChange` for the list of chosen files: nothing happens when
        none was chosen; a file that is not an image only raises the
        "Invalid File" notice; an image becomes the selected file, clears the
        result and starts reading its preview. */
    method HandleFileChange(files: seq<File>)
      requires Valid()
      modifies this
      ensures Valid()
      ensures files == [] ==>
        && selectedFile == old(selectedFile) && result == old(result) && status == old(status)
        && pendingReads == old(pendingReads)
      ensures files != [] && !AcceptsFile(files[0]) ==>
        && status == InvalidFileStatus
        && selectedFile == old(selectedFile) && result == old(result) && pendingReads == old(pendingReads)
      ensures files != [] && AcceptsFile(files[0]) ==>
        && selectedFile == Some(files[0]) && result == None && status == old(status)
        && pendingReads == old(pendingReads) + [files[0]]
      ensures preview == old(preview) && isLoading == old(isLoading)
      ensures pendingDetections == old(pendingDetections)
    {
      if files == [] {
        return;
      }
      var file := files[0];
      if !ContainsImage(file.mimeType) {
        status := InvalidFileStatus;
        return;
      }
      selectedFile := Some(file);
      result := None;
      pendingReads := pendingReads + [file];
    }

    /** The `k`-th pending preview read loads as `dataUrl`: the preview shows
        it, whether or not that file is still the selected one. */
    method PreviewLoaded(k: nat, dataUrl: string)
      requires Valid() && k < |pendingReads|
      modifies this
      ensures Valid()
      ensures preview == Some(dataUrl)
      ensures pendingReads == old(pendingReads[..k] + pendingReads[k + 1..])
      ensures selectedFile == old(selectedFile) && isLoading == old(isLoading) && result == old(result)
      ensures status == old(status) && pendingDetections == old(pendingDetections)
    {
      preview := Some(dataUrl);
      pendingReads := pendingReads[..k] + pendingReads[k + 1..];
    }

    /** `handleRemoveFile`: forget the file, its preview and the result. */
    method HandleRemoveFile()
      requires Valid()
      modifies this
      ensures Valid()
      ensures selectedFile == None && preview == None && result == None
      ensures RunDetectionDisabled()
      ensures isLoading == old(isLoading) && status == old(status)
      ensures pendingReads == old(pendingReads) && pendingDetections == old(pendingDetections)
    {
      selectedFile := None;
      preview := None;
      result := None;
    }

    /** `handleDetection`: without a file only the "No Image Selected" warning
        shows; with one, loading starts, the "Processing" notice shows and a
        timer is scheduled whose callback captured the current preview. */
    method HandleDetection()
      requires Valid()
      modifies this
      ensures Valid()
      ensures old(selectedFile).None? ==>
        && status == NoImageStatus
        && isLoading == old(isLoading) && pendingDetections == old(pendingDetections)
      ensures old(selectedFile).Some? ==>
        && isLoading && status == ProcessingStatus
        && pendingDetections == old(pendingDetections) + [old(preview)]
      ensures !old(RunDetectionDisabled()) ==> isLoading && RunDetectionDisabled()
      ensures selectedFile == old(selectedFile) && preview == old(preview) && result == old(result)
      ensures pendingReads == old(pendingReads)
    {
      if selectedFile.None? {
        status := NoImageStatus;
        return;
      }
      isLoading := true;
      status := ProcessingStatus;
      pendingDetections := pendingDetections + [preview];
    }

    /** The oldest detection timer fires: loading stops, the result becomes
        the preview captured when that detection started (not the current
        one), and the "Analysis Complete" notice shows. */
    method DetectionTimerFires()
      requires Valid() && pendingDetections != []
      modifies this
      ensures Valid()
      ensures !isLoading && result == old(pendingDetections[0]) && status == CompleteStatus
      ensures pendingDetections == old(pendingDetections[1..])
      ensures RunDetectionDisabled() <==> selectedFile.None?
      ensures selectedFile == old(selectedFile) && preview == old(preview)
      ensures pendingReads == old(pendingReads)
    {
      isLoading := false;
      result := pendingDetections[0];
      status := CompleteStatus;
      pendingDetections := pendingDetections[1..];
    }

    /** `closeStatus`: hide the notice, keeping its kind, title and message. */
    method CloseStatus()
      requires Valid()
      modifies this
      ensures Valid()
      ensures status == old(status).(show := false)
      ensures selectedFile == old(selectedFile) && preview == old(preview) && result == old(result)
      ensures isLoading == old(isLoading)
      ensures pendingReads == old(pendingReads) && pendingDetections == old(pendingDetections)
    {
      status := status.(show := false);
    }
  }

  /** Choosing an image, letting its preview load and running detection: the
      button is enabled before the click, disabled while detecting, and the
      result afterwards is the loaded preview. */
  method DetectAfterPreview(file: File, dataUrl: string)
    returns (enabledBefore: bool, disabledDuring: bool, shown: Option<string>, enabledAfter: bool)
    requires AcceptsFile(file)
    ensures enabledBefore && disabledDuring && enabledAfter
    ensures shown == Some(dataUrl)
  {
    var page := new DashboardPage();
    page.HandleFileChange([file]);
    page.PreviewLoaded(0, dataUrl);
    enabledBefore := !page.RunDetectionDisabled();
    page.HandleDetection();
    disabledDuring := page.RunDetectionDisabled();
    page.DetectionTimerFires();
    shown := page.result;
    enabledAfter := !page.RunDetectionDisabled();
  }

  /** Running detection before the preview has loaded: the preview appears
      later, but the completed detection shows no result, because the timer
      callback captured the preview as it was at the click. */
  method DetectBeforePreview(file: File, dataUrl: string)
    returns (previewShown: Option<string>, shown: Option<string>)
    requires AcceptsFile(file)
    ensures previewShown == Some(dataUrl) && shown == None
  {
    var page := new DashboardPage();
    page.HandleFileChange([file]);
    page.HandleDetection();
    page.PreviewLoaded(0, dataUrl);
    page.DetectionTimerFires();
    previewShown := page.preview;
    shown := page.result;
  }

  /** Rejecting a file leaves the previous selection in place. */
  method RejectKeepsSelection(image: File, other: File)
    returns (selected: Option<File>, notice: Status)
    requires AcceptsFile(image) && !AcceptsFile(other)
    ensures selected == Some(image) && notice == InvalidFileStatus
  {
    var page := new DashboardPage();
    page.HandleFileChange([image]);
    page.HandleFileChange([other]);
    selected := page.selectedFile;
    notice := page.status;
  }
}
