/** Optional values, used where the modelled C++ code either produces a
    value or reports that there is none (a failed regex match, a missing
    map entry, a parse that does not apply). */
module Optional {

  datatype Option<+T> = None | Some(value: T)
}
