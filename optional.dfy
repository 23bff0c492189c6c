/** Swift's optional values (`String?`) as a datatype. */
module Optional {

  datatype Option<+T> = None | Some(value: T)
}
