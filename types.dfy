/**
 * Constants and record shapes of the execution backend: the user cap per
 * container, the autoscaling thresholds, the CPU quota unit and the host and
 * container directories that hold source and compiled files.
 */
module Types {

  /** `MAX_USERS`: sessions sharing one container before it counts as filled. */
  const MaxUsers: int := 2

  /** `MEMORY_USAGE_HIGH_THRESHOLD` / `MEMORY_USAGE_LOW_THRESHOLD`, in percent;
      both are also used for CPU usage. */
  const HighThreshold: real := 90.0
  const LowThreshold: real := 30.0

  /** `CPU_UNIT`: the quota granted per CPU step, half of `CpuPeriod`. */
  const CpuUnit: int := 50_000

  /** The CFS period written with every create and update request. */
  const CpuPeriod: int := 100_000

  /** The process limit written with every create request. */
  const PidsLimit: int := 100

  /** The relative CPU weight and block I/O weight of every container. */
  const CpuShares: int := 512
  const BlkioWeight: int := 100

  /** Seconds the engine waits for a container to stop (`testTimeout`). */
  const StopTimeout: int := 300

  const CompiledFiles: string := "/tmp/tmp_compiled"
  const CodeFilesDir: string := "/tmp/code_files"
  const ContainerCompiledFiles: string := "/tmp/tmp_compiled"

  /** Per-language sandbox settings (`LangOptions`); the command builders are
      functions of the language key in module LangConfig. */
  datatype LangOptions = LangOptions(
    image: string,
    isCompiled: bool,
    minCpu: int,
    minMem: int,
    incrementalMem: int,
    incrementalCpu: int,
    maxMem: int,
    maxCpu: int,
    cpuIdleThreshold: int,
    memIdleThreshold: int)

  /** The memory (bytes) and CPU (in `CpuUnit` steps) last granted to a container. */
  datatype ContainerResources = ContainerResources(currentMemory: int, currentCpu: int)

  /** The limits sent to the engine when a container is created or updated. */
  datatype Limits = Limits(memory: int, memorySwap: int, cpuPeriod: int, cpuQuota: int)

  /** A per-process resource limit of the container, soft and hard. */
  datatype Ulimit = Ulimit(name: string, soft: int, hard: int)

  /** The limits on processes and open files of every container. */
  const Ulimits: seq<Ulimit> := [Ulimit("nproc", 50, 100), Ulimit("nofile", 50, 100)]

  /** What a create request asks of the engine: the image and shell to start,
      the stop timeout, the resource limits, and the sandbox settings (a
      read-only root file system, every capability dropped, no new privileges). */
  datatype CreateRequest = CreateRequest(
    image: string,
    cmd: seq<string>,
    stopTimeout: int,
    limits: Limits,
    cpuShares: int,
    blkioWeight: int,
    pidsLimit: int,
    ulimits: seq<Ulimit>,
    readOnlyRoot: bool,
    capDrop: seq<string>,
    securityOpt: seq<string>)
}
