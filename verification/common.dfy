/** Small shared vocabulary: optional values and the abstract notices
    ("toasts") that operations return instead of displaying. */
module Common {

  /** A value that may be absent (`null`/`undefined` in the application). */
  datatype Option<+T> = None | Some(value: T)

  /** A transient user-visible notice. Only its content is modelled;
      how and for how long it is displayed is not. */
  datatype Notice = Notice(title: string, description: string, destructive: bool)
}
