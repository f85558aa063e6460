/** Stock optional-value datatype, used for the form's optional `initialData`
    prop and for what a submit hands to its `onSubmit` callback. */
module Wrappers {

  datatype Option<+T> = None | Some(value: T)
}
