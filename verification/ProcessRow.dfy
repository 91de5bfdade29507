/** A row of a device's process table: every value travels with a flag that says whether it is valid. */
module ProcessRow {
  datatype Field = Field(value: nat, valid: bool)

  const UNSET: Field := Field(0, false)

  /** SET_GPUINFO_PROCESS */
  function Set(v: nat): Field { Field(v, true) }

  /** A running sum with one more value, if it is valid. */
  function Plus(sum: Field, f: Field): Field { if f.valid then Set(sum.value + f.value) else sum }

  datatype GpuProcess = GpuProcess(
    pid: int, graphical: bool, compute: bool,
    memory: Field, gpuUsage: Field, encodeUsage: Field, decodeUsage: Field,
    gfxEngine: Field, computeEngine: Field, encEngine: Field, decEngine: Field,
    cycles: Field, sampleDelta: Field)

  /** A row cleared by memset, but for the pid. */
  function EmptyRow(pid: int): GpuProcess {
    GpuProcess(pid, false, false, UNSET, UNSET, UNSET, UNSET, UNSET, UNSET, UNSET, UNSET, UNSET, UNSET)
  }

  /** The values of a row that are added up. */
  datatype Value = Memory | GpuUsage | EncodeUsage | DecodeUsage | GfxEngine | ComputeEngine | EncEngine | DecEngine | Cycles | SampleDelta

  function Get(r: GpuProcess, v: Value): Field {
    match v
    case Memory => r.memory
    case GpuUsage => r.gpuUsage
    case EncodeUsage => r.encodeUsage
    case DecodeUsage => r.decodeUsage
    case GfxEngine => r.gfxEngine
    case ComputeEngine => r.computeEngine
    case EncEngine => r.encEngine
    case DecEngine => r.decEngine
    case Cycles => r.cycles
    case SampleDelta => r.sampleDelta
  }
}
