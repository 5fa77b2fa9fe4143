/** The nullable values of the pages (`number | null`, `string | null`,
    `File | null`) are modelled as an Option. */
module Maybe {
  datatype Option<+T> = None | Some(value: T)
}
