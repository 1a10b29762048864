/**
 * The page logic of public/js/app.js that is not DOM plumbing: the task queue
 * (`TaskManager`), the model-name table and its flash/ratio rule, the reference-image
 * list, and the prompt templates.
 */
module App {
  import opened Wrappers
  import opened JsText

  // ---------------------------------------------------------------- model names

  datatype VersionKind = Flash | Pro

  /** An entry of `MODEL_CONFIG.versions`. */
  datatype VersionConfig = VersionConfig(prefix: string, suffix: string, kind: VersionKind)

  /** An entry of `MODEL_CONFIG.ratios`. */
  datatype RatioConfig = RatioConfig(suffix: string, flash: bool, pro: bool)

  function Versions(version: string): Option<VersionConfig>
  {
    match version
    case "gemini-2.5-flash" => Some(VersionConfig("gemini-2.5-flash-image", "", Flash))
    case "gemini-3.0-pro" => Some(VersionConfig("gemini-3.0-pro-image", "", Pro))
    case "gemini-3.0-pro-2k" => Some(VersionConfig("gemini-3.0-pro-image", "-2k", Pro))
    case "gemini-3.0-pro-4k" => Some(VersionConfig("gemini-3.0-pro-image", "-4k", Pro))
    case _ => None
  }

  function Ratios(ratio: string): Option<RatioConfig>
  {
    match ratio
    case "portrait" => Some(RatioConfig("portrait", true, true))
    case "landscape" => Some(RatioConfig("landscape", true, true))
    case "square" => Some(RatioConfig("square", false, true))
    case "four-three" => Some(RatioConfig("four-three", false, true))
    case "three-four" => Some(RatioConfig("three-four", false, true))
    case _ => None
  }

  const FallbackModel := "gemini-3.0-pro-image-landscape"
  const DefaultVersion := "gemini-3.0-pro"

  /** `buildModelName`: prefix, `-`, ratio suffix, version suffix; the fallback for an unknown key. */
  function BuildModelName(version: string, ratio: string): (name: string)
    ensures Versions(version).None? || Ratios(ratio).None? ==> name == FallbackModel
    ensures Versions(version).Some? && Ratios(ratio).Some? ==>
              StartsWith(name, Versions(version).value.prefix + "-")
              && EndsWith(name, Ratios(ratio).value.suffix + Versions(version).value.suffix)
  {
    match (Versions(version), Ratios(ratio))
    case (Some(v), Some(r)) => v.prefix + "-" + r.suffix + v.suffix
    case _ => FallbackModel
  }

  /** The version and ratio a built model name was made from, read back from the name. */
  function ParseModelName(name: string): Option<(string, string)>
  {
    var flashHead := "gemini-2.5-flash-image-";
    var proHead := "gemini-3.0-pro-image-";
    if StartsWith(name, flashHead) then
      var ratio := name[|flashHead|..];
      if Ratios(ratio).Some? then Some(("gemini-2.5-flash", ratio)) else None
    else if StartsWith(name, proHead) then
      var rest := name[|proHead|..];
      if Ratios(rest).Some? then Some(("gemini-3.0-pro", rest))
      else if EndsWith(rest, "-2k") && Ratios(rest[..|rest| - 3]).Some? then
        Some(("gemini-3.0-pro-2k", rest[..|rest| - 3]))
      else if EndsWith(rest, "-4k") && Ratios(rest[..|rest| - 3]).Some? then
        Some(("gemini-3.0-pro-4k", rest[..|rest| - 3]))
      else None
    else None
  }

  lemma RatioKeyIsSuffix(ratio: string)
    requires Ratios(ratio).Some?
    ensures Ratios(ratio).value.suffix == ratio
    ensures !EndsWith(ratio, "-2k") && !EndsWith(ratio, "-4k")
  {
  }

  lemma ParseFlashName(ratio: string)
    requires Ratios(ratio).Some?
    ensures ParseModelName("gemini-2.5-flash-image-" + ratio) == Some(("gemini-2.5-flash", ratio))
  {
    var head := "gemini-2.5-flash-image-";
    var name := head + ratio;
    assert name[..|head|] == head;
    assert name[|head|..] == ratio;
  }

  lemma ParseProName(ratio: string)
    requires Ratios(ratio).Some?
    ensures ParseModelName("gemini-3.0-pro-image-" + ratio) == Some(("gemini-3.0-pro", ratio))
  {
    var head := "gemini-3.0-pro-image-";
    var name := head + ratio;
    assert !StartsWith(name, "gemini-2.5-flash-image-") by {
      assert name[7] == '3';
    }
    assert name[..|head|] == head;
    assert name[|head|..] == ratio;
  }

  /** A name of a sized pro version: the ratio is read back from before the size suffix. */
  lemma ParseSizedProName(ratio: string, suffix: string)
    requires Ratios(ratio).Some?
    requires suffix == "-2k" || suffix == "-4k"
    ensures var rest := ratio + suffix;
      && StartsWith(rest, ratio)
      && !Ratios(rest).Some?
      && rest[..|rest| - 3] == ratio
      && EndsWith(rest, "-2k") == (suffix == "-2k")
      && EndsWith(rest, "-4k") == (suffix == "-4k")
  {
    var rest := ratio + suffix;
    assert rest[..|rest| - 3] == ratio;
    assert rest[|rest| - 3..] == suffix;
    assert rest[|rest| - 2] == suffix[1];
    if Ratios(rest).Some? {
      RatioKeyIsSuffix(rest);
    }
  }

  lemma ParseProSizedName(ratio: string, suffix: string)
    requires Ratios(ratio).Some?
    requires suffix == "-2k" || suffix == "-4k"
    ensures suffix == "-2k" ==> ParseModelName("gemini-3.0-pro-image-" + ratio + suffix) == Some(("gemini-3.0-pro-2k", ratio))
    ensures suffix == "-4k" ==> ParseModelName("gemini-3.0-pro-image-" + ratio + suffix) == Some(("gemini-3.0-pro-4k", ratio))
  {
    var head := "gemini-3.0-pro-image-";
    var name := head + ratio + suffix;
    assert !StartsWith(name, "gemini-2.5-flash-image-") by {
      assert name[7] == '3';
    }
    assert name[..|head|] == head;
    assert name[|head|..] == ratio + suffix;
    ParseSizedProName(ratio, suffix);
  }

  lemma ModelNameRoundTrip(version: string, ratio: string)
    requires Versions(version).Some? && Ratios(ratio).Some?
    ensures ParseModelName(BuildModelName(version, ratio)) == Some((version, ratio))
  {
    RatioKeyIsSuffix(ratio);
    var name := BuildModelName(version, ratio);
    if version == "gemini-2.5-flash" {
      assert name == "gemini-2.5-flash-image" + "-" + ratio + "";
      assert name == "gemini-2.5-flash-image-" + ratio;
      ParseFlashName(ratio);
    } else if version == "gemini-3.0-pro" {
      assert name == "gemini-3.0-pro-image" + "-" + ratio + "";
      assert name == "gemini-3.0-pro-image-" + ratio;
      ParseProName(ratio);
    } else if version == "gemini-3.0-pro-2k" {
      assert name == "gemini-3.0-pro-image" + "-" + ratio + "-2k";
      assert name == "gemini-3.0-pro-image-" + ratio + "-2k";
      ParseProSizedName(ratio, "-2k");
    } else {
      assert name == "gemini-3.0-pro-image" + "-" + ratio + "-4k";
      assert name == "gemini-3.0-pro-image-" + ratio + "-4k";
      ParseProSizedName(ratio, "-4k");
    }
  }

  /** Distinct known choices always give distinct model names. */
  lemma ModelNameInjective(v1: string, r1: string, v2: string, r2: string)
    requires Versions(v1).Some? && Ratios(r1).Some? && Versions(v2).Some? && Ratios(r2).Some?
    requires BuildModelName(v1, r1) == BuildModelName(v2, r2)
    ensures v1 == v2 && r1 == r2
  {
    ModelNameRoundTrip(v1, r1);
    ModelNameRoundTrip(v2, r2);
  }

  /** `isSupported` in `updateVersionOptions`: a known flash version needs a ratio that allows flash. */
  predicate Supported(version: string, ratioConfig: RatioConfig)
  {
    !(Versions(version).Some? && Versions(version).value.kind == Flash && !ratioConfig.flash)
  }

  /** Of the known ratios only portrait and landscape allow the flash version; every other version is always allowed. */
  lemma SupportedExactly(version: string, ratio: string)
    requires Ratios(ratio).Some?
    ensures Supported(version, Ratios(ratio).value) <==>
              version != "gemini-2.5-flash" || ratio == "portrait" || ratio == "landscape"
  {
  }

  // ---------------------------------------------------------------- reference images and templates

  const MaxReferenceImages := 5

  /** How many of `offered` files the reference loop takes when `held` are already there. */
  function ReferenceAccepted(held: nat, offered: nat): (n: nat)
    ensures n <= offered
    ensures held < MaxReferenceImages ==> held + n <= MaxReferenceImages
    ensures held >= MaxReferenceImages ==> n == 0
    ensures n < offered ==> held + n >= MaxReferenceImages
  {
    if held >= MaxReferenceImages then 0
    else if offered <= MaxReferenceImages - held then offered
    else MaxReferenceImages - held
  }

  /**
   * `splice(index, 1)`: a negative index counts from the end (clamped at 0), an index at
   * or past the end removes nothing.
   */
  function SpliceOne<T>(s: seq<T>, index: int): (r: seq<T>)
    ensures 0 <= index < |s| ==> r == s[..index] + s[index + 1..]
    ensures index >= |s| ==> r == s
    ensures |r| == if s == [] || index >= |s| then |s| else |s| - 1
  {
    var start := if index < 0 then (if |s| + index < 0 then 0 else |s| + index) else index;
    if start < |s| then s[..start] + s[start + 1..] else s
  }

  /** Removing at a valid index deletes exactly that element and keeps the others in order. */
  lemma SpliceOneRemoves<T>(s: seq<T>, i: nat)
    requires i < |s|
    ensures multiset(SpliceOne(s, i)) + multiset{s[i]} == multiset(s)
    ensures forall j :: 0 <= j < |s| - 1 ==> SpliceOne(s, i)[j] == if j < i then s[j] else s[j + 1]
  {
    var r := SpliceOne(s, i);
    assert s == s[..i] + [s[i]] + s[i + 1..];
    calc {
      multiset(s);
      multiset(s[..i]) + multiset{s[i]} + multiset(s[i + 1..]);
      multiset(r) + multiset{s[i]};
    }
  }

  /** A template click: the trimmed prompt, `, ` and the template, or the template alone. */
  function ApplyTemplate(current: string, template: string): (r: string)
    ensures EndsWith(r, template)
    ensures Trim(current) == "" ==> r == template
    ensures Trim(current) != "" ==>
              StartsWith(r, Trim(current) + ", ") && |r| == |Trim(current)| + 2 + |template|
  {
    var currentText := Trim(current);
    if currentText != "" then currentText + ", " + template else template
  }

  /** A string that starts and ends with non-space characters is its own trim. */
  lemma TrimUnchanged(s: string)
    requires s != [] && !IsSpace(s[0]) && !IsSpace(s[|s| - 1])
    ensures Trim(s) == s
  {
    var t := TrimStart(s);
    assert t == s;
  }

  /** Clicking two templates in turn lists both after the prompt, when the first ends in a non-space. */
  lemma TemplatesAccumulate(current: string, t1: string, t2: string)
    requires Trim(current) != ""
    requires t1 != [] && !IsSpace(t1[|t1| - 1])
    ensures ApplyTemplate(ApplyTemplate(current, t1), t2) == Trim(current) + ", " + t1 + ", " + t2
  {
    var c := Trim(current);
    var once := c + ", " + t1;
    assert ApplyTemplate(current, t1) == once;
    assert once[0] == c[0] && once[|once| - 1] == t1[|t1| - 1];
    assert !IsSpace(c[0]) by {
      assert TrimStart(current) != [];
      assert c[0] == TrimStart(current)[0];
    }
    TrimUnchanged(once);
  }

  /** The page state the modelled operations read and write. */
  class AppState {
    var ratio: string
    var modelVersion: string
    /** The options of the version `<select>`, and which of them are disabled. */
    var versionOptions: seq<string>
    var versionDisabled: seq<bool>
    var referenceImages: seq<string>

    predicate Valid()
      reads this
    {
      |versionDisabled| == |versionOptions|
    }

    constructor (ratio: string, modelVersion: string, versionOptions: seq<string>)
      ensures Valid()
      ensures this.ratio == ratio && this.modelVersion == modelVersion
      ensures this.versionOptions == versionOptions && referenceImages == []
    {
      this.ratio := ratio;
      this.modelVersion := modelVersion;
      this.versionOptions := versionOptions;
      versionDisabled := seq(|versionOptions|, _ => false);
      referenceImages := [];
    }

    /** `getModel`. */
    function Model(): (name: string)
      reads this
      ensures Versions(modelVersion).Some? && Ratios(ratio).Some? ==>
                ParseModelName(name) == Some((modelVersion, ratio))
    {
      if Versions(modelVersion).Some? && Ratios(ratio).Some? then
        ModelNameRoundTrip(modelVersion, ratio);
        BuildModelName(modelVersion, ratio)
      else
        BuildModelName(modelVersion, ratio)
    }

    /**
     * `updateVersionOptions`: for a known ratio, disable each option it does not support,
     * and move the selection off an unsupported option to `gemini-3.0-pro`; an unknown
     * ratio changes nothing.
     */
    method UpdateVersionOptions()
      requires Valid()
      modifies this
      ensures Valid()
      ensures ratio == old(ratio) && versionOptions == old(versionOptions)
      ensures referenceImages == old(referenceImages)
      ensures Ratios(ratio).None? ==>
                versionDisabled == old(versionDisabled) && modelVersion == old(modelVersion)
      ensures Ratios(ratio).Some? ==>
                (forall i :: 0 <= i < |versionOptions| ==>
                   versionDisabled[i] == !Supported(versionOptions[i], Ratios(ratio).value))
                && modelVersion == (if old(modelVersion) in versionOptions && !Supported(old(modelVersion), Ratios(ratio).value)
                                    then DefaultVersion else old(modelVersion))
      ensures Ratios(ratio).Some? && old(modelVersion) in versionOptions ==>
                Supported(modelVersion, Ratios(ratio).value)
    {
      var ratioConfig := Ratios(ratio);
      if ratioConfig.None? {
        return;
      }
      var rc := ratioConfig.value;
      var i := 0;
      while i < |versionOptions|
        invariant 0 <= i <= |versionOptions| && Valid()
        invariant ratio == old(ratio) && versionOptions == old(versionOptions)
        invariant referenceImages == old(referenceImages)
        invariant forall j :: 0 <= j < i ==> versionDisabled[j] == !Supported(versionOptions[j], rc)
        invariant modelVersion == (if old(modelVersion) in versionOptions[..i] && !Supported(old(modelVersion), rc)
                                   then DefaultVersion else old(modelVersion))
      {
        var version := versionOptions[i];
        var isSupported := Supported(version, rc);
        versionDisabled := versionDisabled[i := !isSupported];
        if !isSupported && modelVersion == version {
          modelVersion := DefaultVersion;
        }
        assert versionOptions[..i + 1] == versionOptions[..i] + [version];
        i := i + 1;
      }
      assert versionOptions[..i] == versionOptions;
    }

    /** The reference-image drop handler: append the files in order, stopping once 5 are held. */
    method AddReferenceImages(files: seq<string>)
      modifies this
      ensures referenceImages == old(referenceImages) + files[..ReferenceAccepted(|old(referenceImages)|, |files|)]
      ensures ratio == old(ratio) && modelVersion == old(modelVersion)
      ensures versionOptions == old(versionOptions) && versionDisabled == old(versionDisabled)
    {
      var i := 0;
      while i < |files|
        invariant 0 <= i <= |files|
        invariant referenceImages == old(referenceImages) + files[..i]
        invariant i > 0 ==> |old(referenceImages)| + i <= MaxReferenceImages
        invariant ratio == old(ratio) && modelVersion == old(modelVersion)
        invariant versionOptions == old(versionOptions) && versionDisabled == old(versionDisabled)
      {
        if |referenceImages| >= MaxReferenceImages {
          break;
        }
        referenceImages := referenceImages + [files[i]];
        assert files[..i + 1] == files[..i] + [files[i]];
        i := i + 1;
      }
    }

    /** The remove button of a reference preview: `splice(index, 1)`. */
    method RemoveReferenceImage(index: int)
      modifies this
      ensures referenceImages == SpliceOne(old(referenceImages), index)
      ensures ratio == old(ratio) && modelVersion == old(modelVersion)
      ensures versionOptions == old(versionOptions) && versionDisabled == old(versionDisabled)
    {
      referenceImages := SpliceOne(referenceImages, index);
    }
  }

  // ---------------------------------------------------------------- task queue

  const MaxTasks := 3

  /** A queued generation; `result` stays `null` until the call finishes. */
  datatype Task = Task(
    id: string,
    kind: string,
    prompt: string,
    status: string,
    progress: real,
    result: Option<string>,
    createdAt: string)

  /** The fields an `updateTask` call may carry; absent ones are left alone by `Object.assign`. */
  datatype TaskUpdate = TaskUpdate(status: Option<string>, progress: Option<real>, result: Option<string>)

  function Merge(task: Task, u: TaskUpdate): (t: Task)
    ensures t.id == task.id && t.kind == task.kind && t.prompt == task.prompt && t.createdAt == task.createdAt
    ensures t.status == (if u.status.Some? then u.status.value else task.status)
    ensures t.progress == (if u.progress.Some? then u.progress.value else task.progress)
    ensures t.result == (if u.result.Some? then u.result else task.result)
  {
    task.(status := if u.status.Some? then u.status.value else task.status,
          progress := if u.progress.Some? then u.progress.value else task.progress,
          result := if u.result.Some? then u.result else task.result)
  }

  /** The index of the first task with the id, as `find` locates it. */
  function IndexOfId(tasks: seq<Task>, id: string): (k: Option<nat>)
    ensures k.Some? ==> k.value < |tasks| && tasks[k.value].id == id
                        && forall j :: 0 <= j < k.value ==> tasks[j].id != id
    ensures k.None? ==> forall j :: 0 <= j < |tasks| ==> tasks[j].id != id
  {
    if tasks == [] then None
    else if tasks[0].id == id then Some(0)
    else match IndexOfId(tasks[1..], id)
      case Some(k) => Some(k + 1)
      case None => None
  }

  /** `filter(t => t.id !== id)` on the task list. */
  function WithoutTask(tasks: seq<Task>, id: string): (r: seq<Task>)
    ensures |r| <= |tasks|
    ensures forall t :: t in r <==> t in tasks && t.id != id
  {
    if tasks == [] then []
    else if tasks[0].id != id then [tasks[0]] + WithoutTask(tasks[1..], id)
    else WithoutTask(tasks[1..], id)
  }

  /**
   * The filter works task by task and keeps the order: filtering a concatenation is
   * concatenating the filtered parts, and a single task is kept exactly when its id differs.
   */
  lemma {:induction false} WithoutTaskAppend(a: seq<Task>, b: seq<Task>, id: string)
    ensures WithoutTask(a + b, id) == WithoutTask(a, id) + WithoutTask(b, id)
    ensures forall t :: WithoutTask([t], id) == (if t.id != id then [t] else [])
  {
    forall t
      ensures WithoutTask([t], id) == (if t.id != id then [t] else [])
    {
      assert [t][1..] == [];
    }
    if a == [] {
      assert a + b == b;
    } else {
      assert (a + b)[0] == a[0];
      assert (a + b)[1..] == a[1..] + b;
      WithoutTaskAppend(a[1..], b, id);
    }
  }

  /**
   * The task `removeTask` makes active when the active one goes: the first task, in list
   * order, whose id differs from the removed one.
   */
  lemma {:induction false} WithoutTaskFirst(tasks: seq<Task>, id: string, k: nat)
    requires k < |tasks| && tasks[k].id != id
    requires forall j :: 0 <= j < k ==> tasks[j].id == id
    ensures WithoutTask(tasks, id) != [] && WithoutTask(tasks, id)[0] == tasks[k]
  {
    if k > 0 {
      WithoutTaskFirst(tasks[1..], id, k - 1);
    }
  }

  /** `updateTask` on the list: merge into the first task with the id, if any. */
  function UpdateFirst(tasks: seq<Task>, id: string, u: TaskUpdate): seq<Task>
  {
    match IndexOfId(tasks, id)
    case Some(k) => tasks[k := Merge(tasks[k], u)]
    case None => tasks
  }

  /** Only the first task with the id changes, and only in the fields the update carries. */
  lemma UpdateFirstFrame(tasks: seq<Task>, id: string, u: TaskUpdate, j: nat)
    requires j < |tasks|
    ensures |UpdateFirst(tasks, id, u)| == |tasks|
    ensures IndexOfId(tasks, id) != Some(j) ==> UpdateFirst(tasks, id, u)[j] == tasks[j]
    ensures IndexOfId(tasks, id) == Some(j) ==> UpdateFirst(tasks, id, u)[j] == Merge(tasks[j], u)
    ensures (forall i :: 0 <= i < |tasks| ==> tasks[i].id != id) ==> UpdateFirst(tasks, id, u) == tasks
  {
  }

  /** What `setActive` shows: nothing, an image result, or a video result when the task's type names `video`. */
  datatype Shown = NothingShown | ImageShown(result: string) | VideoShown(result: string)

  /** The task queue: at most three tasks, and the id of the one on display. */
  class TaskManager {
    var tasks: seq<Task>
    var activeTaskId: Option<string>

    predicate Valid()
      reads this
    {
      |tasks| <= MaxTasks
    }

    /** The active id names a task in the list. */
    predicate ActiveIsListed()
      reads this
    {
      activeTaskId.Some? && exists i :: 0 <= i < |tasks| && tasks[i].id == activeTaskId.value
    }

    constructor ()
      ensures Valid() && tasks == [] && activeTaskId == None
    {
      tasks := [];
      activeTaskId := None;
    }

    /** `canAddTask`. */
    function CanAddTask(): (b: bool)
      reads this
      ensures b <==> |tasks| < MaxTasks
    {
      |tasks| < MaxTasks
    }

    /**
     * `addTask`: refuse when three tasks exist; otherwise append a running task with
     * progress 0 and no result, and make it active. `id` and `createdAt` stand for the
     * clock readings.
     */
    method AddTask(kind: string, prompt: string, id: string, createdAt: string) returns (task: Option<Task>)
      requires Valid()
      modifies this
      ensures Valid()
      ensures old(|tasks|) >= MaxTasks ==>
                task.None? && tasks == old(tasks) && activeTaskId == old(activeTaskId)
      ensures old(|tasks|) < MaxTasks ==>
                task == Some(Task(id, kind, prompt, "running", 0.0, None, createdAt))
                && tasks == old(tasks) + [task.value]
                && activeTaskId == Some(id) && ActiveIsListed()
    {
      if !CanAddTask() {
        return None;
      }
      var t := Task(id, kind, prompt, "running", 0.0, None, createdAt);
      tasks := tasks + [t];
      activeTaskId := Some(t.id);
      task := Some(t);
      assert tasks[|tasks| - 1].id == id;
    }

    /** `updateTask`: merge the update into the first task with the id; no task, no change. */
    method UpdateTask(id: string, updates: TaskUpdate)
      requires Valid()
      modifies this
      ensures Valid()
      ensures tasks == UpdateFirst(old(tasks), id, updates) && activeTaskId == old(activeTaskId)
    {
      var k := IndexOfId(tasks, id);
      if k.Some? {
        tasks := tasks[k.value := Merge(tasks[k.value], updates)];
      }
    }

    /**
     * `removeTask`: drop every task with the id; if the active one went and others
     * remain, the first remaining becomes active; if none remain, none is active.
     */
    method RemoveTask(id: string)
      requires Valid()
      modifies this
      ensures Valid()
      ensures tasks == WithoutTask(old(tasks), id)
      ensures old(activeTaskId) == Some(id) && tasks != [] ==> activeTaskId == Some(tasks[0].id)
      ensures tasks == [] ==> activeTaskId == None
      ensures old(activeTaskId) != Some(id) && tasks != [] ==> activeTaskId == old(activeTaskId)
      ensures old(ActiveIsListed()) && tasks != [] ==> ActiveIsListed()
    {
      var listed := ActiveIsListed();
      tasks := WithoutTask(tasks, id);
      if activeTaskId == Some(id) && |tasks| > 0 {
        activeTaskId := Some(tasks[0].id);
      } else if |tasks| == 0 {
        activeTaskId := None;
      }
      if listed && tasks != [] && activeTaskId != Some(tasks[0].id) {
        ghost var i :| 0 <= i < |old(tasks)| && old(tasks)[i].id == activeTaskId.value;
        assert old(tasks)[i] in tasks;
      }
    }

    /** `setActive`: point at the id and show the first matching task's result, if it is truthy. */
    method SetActive(id: string) returns (shown: Shown)
      requires Valid()
      modifies this
      ensures Valid()
      ensures activeTaskId == Some(id) && tasks == old(tasks)
      ensures IndexOfId(tasks, id).None? ==> shown == NothingShown
      ensures IndexOfId(tasks, id).Some? ==>
                var t := tasks[IndexOfId(tasks, id).value];
                shown == (if !Truthy(t.result) then NothingShown
                          else if Contains(t.kind, "video") then VideoShown(t.result.value)
                          else ImageShown(t.result.value))
    {
      activeTaskId := Some(id);
      var k := IndexOfId(tasks, id);
      shown := NothingShown;
      if k.Some? {
        var task := tasks[k.value];
        if Truthy(task.result) {
          if Contains(task.kind, "video") {
            shown := VideoShown(task.result.value);
          } else {
            shown := ImageShown(task.result.value);
          }
        }
      }
    }
  }
}
