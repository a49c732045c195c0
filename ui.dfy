/** What a component tells the user after an action. */
module Ui {
  datatype Notice =
    | Quiet                     // nothing is shown
    | Toast(text: string)       // `toast.success(text)`
    | ErrorToast(text: string)  // `toast.error(text)`
    | Alert(text: string)       // `alert(text)`
}
