/** The optional-value datatype the regex matchers of the converter return
    (a Python `re.match` result is either a match object or None). */
module Wrappers {

  datatype Option<+T> = None | Some(value: T)

}
