/** V8 call frames as they appear in trace and cpuprofile JSON. */
module V8 {
  /** Lines and columns are zero-based, -1 when unknown. */
  datatype CallFrame = CallFrame(functionName: string, scriptId: string, url: string, lineNumber: int,
                                 columnNumber: int)
}
