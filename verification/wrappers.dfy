/** Optional values, used for a document's id (absent until the first save)
    and for its `expires` timestamp (absent means the record never expires). */
module Wrappers {

  datatype Option<+T> = None | Some(value: T)
}
