/** Text operations shared by session filters and rule conditions. */
module Strings {
  predicate Substring(needle: string, hay: string) {
    exists i :: 0 <= i <= |hay| && needle <= hay[i..]
  }
}
