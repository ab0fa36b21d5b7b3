/** The optional value every lookup, fetch and parse in the scraper may yield. */
module Wrappers {

  datatype Option<+T> = None | Some(value: T)
}
