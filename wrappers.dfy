/** Optional values and the exceptions that the modelled code raises and catches. */
module Wrappers {

  datatype Option<+T> = None | Some(value: T)

  /** The exceptions that can escape a step of the package indexer. Each one is caught by an
      enclosing try block of the source, so the model records which one was raised. */
  datatype Fault =
    | KeyNotFound      // logoNameFromNamespace[PackageVersion.Unknown]
    | IndexOutOfRange  // UserModelId.Split('!')[1] on an id without '!'
    | NullReference    // no uap:VisualElements node, so visualElement.Attributes dereferences null
    | InvalidUri       // the ArgumentException of InitLogoPathFromUri for a null or blank uri
    | ImageUnreadable  // File.OpenRead or BitmapDecoder failing on a logo candidate

  /** The value an expression computes, or the exception it throws instead. */
  datatype Outcome<+T> = Done(value: T) | Threw(fault: Fault)

  /** How a void method ended: normally, or by throwing. */
  datatype Completion = Normal | Abrupt(fault: Fault)
}
