/**
 * The language registry (`LangImages`): a constant table of sandbox settings
 * and the command builders attached to each entry. Each Go closure of the
 * table is a function of the language key here; values that the closures read
 * from the clock or the file system are parameters.
 */
module LangConfig {
  import opened Wrappers
  import opened Strings
  import opened Types

  const MiB: int := 1024 * 1024

  /** The supported languages and their settings. */
  const LangImages: map<string, LangOptions> := map[
    "js" := LangOptions(
      image := "node:22.14-alpine", isCompiled := false,
      minCpu := 1, minMem := 128 * MiB, incrementalMem := 100 * MiB, incrementalCpu := 1,
      maxMem := 1024 * MiB, maxCpu := 2, cpuIdleThreshold := 5, memIdleThreshold := 15),
    "ts" := LangOptions(
      image := "node:22.14-alpine", isCompiled := true,
      minCpu := 1, minMem := 128 * MiB, incrementalMem := 100 * MiB, incrementalCpu := 1,
      maxMem := 1024 * MiB, maxCpu := 2, cpuIdleThreshold := 5, memIdleThreshold := 15),
    "py" := LangOptions(
      image := "python:3.12-alpine", isCompiled := false,
      minCpu := 1, minMem := 128 * MiB, incrementalMem := 100 * MiB, incrementalCpu := 1,
      maxMem := 1024 * MiB, maxCpu := 2, cpuIdleThreshold := 5, memIdleThreshold := 15),
    "py-ml" := LangOptions(
      image := "python:3.12-alpine", isCompiled := false,
      minCpu := 2, minMem := 256 * MiB, incrementalMem := 100 * MiB, incrementalCpu := 1,
      maxMem := 1024 * MiB, maxCpu := 4, cpuIdleThreshold := 5, memIdleThreshold := 30),
    "c" := LangOptions(
      image := "debian:12.10-slim", isCompiled := true,
      minCpu := 1, minMem := 128 * MiB, incrementalMem := 100 * MiB, incrementalCpu := 1,
      maxMem := 1024 * MiB, maxCpu := 2, cpuIdleThreshold := 3, memIdleThreshold := 5),
    "cpp" := LangOptions(
      image := "gcc:14", isCompiled := true,
      minCpu := 1, minMem := 128 * MiB, incrementalMem := 100 * MiB, incrementalCpu := 1,
      maxMem := 1024 * MiB, maxCpu := 2, cpuIdleThreshold := 3, memIdleThreshold := 5),
    "java" := LangOptions(
      image := "openjdk:21-slim", isCompiled := true,
      minCpu := 1, minMem := 256 * MiB, incrementalMem := 128 * MiB, incrementalCpu := 1,
      maxMem := 1024 * MiB, maxCpu := 2, cpuIdleThreshold := 3, memIdleThreshold := 15),
    "php" := LangOptions(
      image := "php:8.3-cli", isCompiled := false,
      minCpu := 1, minMem := 64 * MiB, incrementalMem := 64 * MiB, incrementalCpu := 1,
      maxMem := 256 * MiB, maxCpu := 1, cpuIdleThreshold := 3, memIdleThreshold := 5)
  ]

  /** The settings keep the autoscaler's bounds ordered and its steps positive. */
  predicate WellFormed(o: LangOptions) {
    0 < o.minMem <= o.maxMem && 0 < o.minCpu <= o.maxCpu
    && o.incrementalMem > 0 && o.incrementalCpu > 0
  }

  lemma TableWellFormed(lang: string)
    requires lang in LangImages
    ensures WellFormed(LangImages[lang])
  {
  }

  /** The source extension of the file written for a compiled language. */
  function SourceExtension(lang: string): Option<string> {
    match lang
    case "ts" => Some(".ts")
    case "c" => Some(".c")
    case "cpp" => Some(".cpp")
    case "java" => Some(".java")
    case _ => None
  }

  /** `FileName`: `<containerID>-<nanos>-code.<ext>`; `nanos` is the host clock in
      nanoseconds. Languages without a `FileName` closure give None. */
  function FileName(lang: string, containerID: string, nanos: nat): (r: Option<string>)
    ensures r.Some? <==> SourceExtension(lang).Some?
    ensures r.Some? ==> HasSuffix(r.value, "-code" + SourceExtension(lang).value)
    ensures r.Some? ==> HasPrefix(r.value, containerID + "-")
  {
    match SourceExtension(lang)
    case None => None
    case Some(ext) =>
      var name := containerID + "-" + NatToString(nanos) + "-code" + ext;
      assert name == (containerID + "-" + NatToString(nanos)) + ("-code" + ext);
      SuffixOfConcat(containerID + "-" + NatToString(nanos), "-code" + ext);
      assert name == (containerID + "-") + (NatToString(nanos) + "-code" + ext);
      PrefixOfConcat(containerID + "-", NatToString(nanos) + "-code" + ext);
      Some(name)
  }

  /** `RunOnHost`: the host compiler invocation for a compiled language, given the
      written source path; None where the table has no such closure. Java's
      output directory is named from the clock (`nanos`) and the path length. */
  function RunOnHost(lang: string, file: string, nanos: nat): (r: Option<seq<string>>)
    ensures r.Some? <==> HasHostCommand(lang)
  {
    match lang
    case "ts" => Some(["tsc", file, "-outDir", CompiledFiles])
    case "c" => Some(["gcc", file, "-o", CompiledFiles + "/" + TrimSuffix(Base(file), ".c") + ".out"])
    case "cpp" => Some(["g++", file, "-o", CompiledFiles + "/" + TrimSuffix(Base(file), ".cpp") + ".out"])
    case "java" => Some(["javac", "-d", JavaOutputDir(file, nanos), file])
    case _ => None
  }

  /** The languages whose table entry has a `RunOnHost` closure. */
  predicate HasHostCommand(lang: string) {
    lang == "ts" || lang == "c" || lang == "cpp" || lang == "java"
  }

  function JavaOutputDir(file: string, nanos: nat): string {
    CompiledFiles + "/" + NatToString(nanos) + "-" + NatToString(|file|)
  }

  /** The compiled languages are exactly those with a host command and a file name. */
  lemma CompiledIffHostCommand(lang: string, file: string, containerID: string, nanos: nat)
    requires lang in LangImages
    ensures LangImages[lang].isCompiled <==> HasHostCommand(lang)
    ensures LangImages[lang].isCompiled <==> RunOnHost(lang, file, nanos).Some?
    ensures LangImages[lang].isCompiled <==> FileName(lang, containerID, nanos).Some?
  {
  }

  /** The class java runs: the first `.class` entry of the directory listing, with
      the suffix removed, or `Main` when the listing failed or holds none. */
  function MainClass(listing: Option<seq<string>>): string {
    match listing
    case None => "Main"
    case Some(entries) => FirstClass(entries)
  }

  function FirstClass(entries: seq<string>): string {
    if entries == [] then "Main"
    else if HasSuffix(entries[0], ".class") then TrimSuffix(entries[0], ".class")
    else FirstClass(entries[1..])
  }

  /** FirstClass picks the earliest `.class` entry, or `Main` when there is none. */
  lemma {:induction false} FirstClassIsEarliest(entries: seq<string>, i: nat)
    requires i < |entries| && HasSuffix(entries[i], ".class")
    requires forall j :: 0 <= j < i ==> !HasSuffix(entries[j], ".class")
    ensures FirstClass(entries) == TrimSuffix(entries[i], ".class")
    decreases i
  {
    if i > 0 {
      FirstClassIsEarliest(entries[1..], i - 1);
    }
  }

  lemma {:induction false} FirstClassWithoutClassFiles(entries: seq<string>)
    requires forall j :: 0 <= j < |entries| ==> !HasSuffix(entries[j], ".class")
    ensures FirstClass(entries) == "Main"
  {
    if entries != [] {
      FirstClassWithoutClassFiles(entries[1..]);
    }
  }

  /** Java's `ExecCmd`: scans the listing of directory `s` in order. */
  method JavaExecCmd(s: string, listing: Option<seq<string>>) returns (cmd: seq<string>)
    ensures cmd == ["java", "-cp", s, MainClass(listing)]
  {
    if listing.None? {
      return ["java", "-cp", s, "Main"];
    }
    var entries := listing.value;
    var i := 0;
    while i < |entries|
      invariant 0 <= i <= |entries|
      invariant FirstClass(entries) == FirstClass(entries[i..])
    {
      if HasSuffix(entries[i], ".class") {
        return ["java", "-cp", s, TrimSuffix(entries[i], ".class")];
      }
      assert entries[i..][1..] == entries[i + 1..];
      i := i + 1;
    }
    return ["java", "-cp", s, "Main"];
  }

  /** `ExecCmd`: the command run inside the container for source text or a
      compiled path `s`. `listing` is what java reads from directory `s`;
      `phpFile` is the file php's builder managed to write (None when the write
      failed). */
  function ExecCmd(lang: string, s: string, listing: Option<seq<string>>, phpFile: Option<string>): seq<string>
    requires lang in LangImages
  {
    match lang
    case "js" => ["node", "-e", s]
    case "ts" => ["node", s]
    case "py" => ["python3", "-c", s]
    case "py-ml" => ["python3", "-c", s]
    case "c" => [s]
    case "cpp" => [s]
    case "java" => ["java", "-cp", s, MainClass(listing)]
    case _ => if phpFile.Some? then ["php", phpFile.value] else ["php", "-r", s]
  }

  /** Every command hands `s` to the program it starts, in its last position
      (java: next to last, before the class name), except php after a
      successful write, which runs the written file. */
  lemma ExecCmdCarriesArgument(lang: string, s: string, listing: Option<seq<string>>, phpFile: Option<string>)
    requires lang in LangImages
    ensures var cmd := ExecCmd(lang, s, listing, phpFile);
      if lang == "java" then cmd[|cmd| - 2] == s
      else if lang == "php" && phpFile.Some? then cmd == ["php", phpFile.value]
      else cmd[|cmd| - 1] == s
  {
  }
}
