/** Shapes of the pipeline's records (src/types/pipeline.ts). */
module PipelineTypes {

  /** A value that JavaScript may leave `undefined`. */
  datatype Option<+T> = None | Some(value: T)

  datatype Status = Pending | Running | Completed | Error

  /** The optional `files` block of a step: purely descriptive. */
  datatype Files = Files(input: seq<string>, output: seq<string>, processing: string)

  /**
   * One pipeline step. `duration` and `progress` are JavaScript numbers, here reals;
   * `icon` is the name of the icon component attached when a run starts (absent in
   * the catalog); `currentMessage` is undefined until the simulator sets it.
   */
  datatype Step = Step(
    id: string,
    name: string,
    description: string,
    duration: real,
    icon: Option<string>,
    status: Status,
    progress: real,
    visualization: string,
    details: seq<string>,
    logs: seq<string>,
    currentMessage: Option<string>,
    files: Option<Files>)

  /** One reading of the four resource gauges. */
  datatype SystemMetrics = SystemMetrics(cpu: real, memory: real, disk: real, network: real)

  /** Ids of a step list, in order. */
  function Ids(steps: seq<Step>): (ids: seq<string>)
    ensures |ids| == |steps|
    ensures forall i :: 0 <= i < |steps| ==> ids[i] == steps[i].id
  {
    seq(|steps|, i requires 0 <= i < |steps| => steps[i].id)
  }

  /** `details[i]`, or undefined when `i` is out of range. */
  function DetailAt(details: seq<string>, i: int): (m: Option<string>)
    ensures m.Some? <==> 0 <= i < |details|
    ensures m.Some? ==> m.value == details[i]
  {
    if 0 <= i < |details| then Some(details[i]) else None
  }
}
