/** The usual optional value, and one fact about walking a sequence by index. */
module Options {
  datatype Option<+T> = None | Some(value: T)

  /** What is left from position k on: its first element, and the rest. */
  lemma FromPosition<T>(s: seq<T>, k: nat)
    requires k < |s|
    ensures s[k..][0] == s[k] && s[k..][1..] == s[k + 1..]
  {
  }
}
