/** Value types shared by every component of the model. */
module Base {

  datatype Option<+T> = None | Some(value: T) {
    function GetOr(default: T): T {
      match this
      case Some(v) => v
      case None => default
    }
  }

  /** scanner_status of a report. */
  datatype ScanStatus = IsOk | Disabled | Error

  /** One octet. Strings are modelled as `string`, one `char` per byte. */
  newtype Byte = x: int | 0 <= x < 256
}
