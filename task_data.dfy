/** What the task harness hands to every task: the number of input and output
    buffers and the element counts recorded beside them. Buffers themselves
    are passed to the operations as sequences. */
module TaskData {

  /** An unsigned byte, the element of `uint8_t` and `char` buffers. */
  type Byte = b: int | 0 <= b < 0x100

  /** A 32-bit signed integer, the element of `int32_t` buffers. */
  type Int32 = x: int | -0x8000_0000 <= x < 0x8000_0000

  /** The shape of a task's `TaskData`: `inputs.size()`, `inputs_count`,
      `outputs.size()` and `outputs_count`. */
  datatype TaskShape = TaskShape(
    inputs: nat,
    inputsCount: seq<nat>,
    outputs: nat,
    outputsCount: seq<nat>)

  /** The task data of a rank on which the caller filled in nothing. */
  const Empty: TaskShape := TaskShape(0, [], 0, [])
}
