/** Small shared vocabulary. */
module Prelude {

  datatype Option<+T> = None | Some(value: T)

  /** What a kernel entry leaves behind: a kernel that runs on, or `kz_sysdown`, which never returns. */
  datatype Outcome<+T> = Up(value: T) | Down

  type Byte = b: int | 0 <= b < 0x100
  type Word = w: int | 0 <= w < 0x1_0000_0000

  ghost predicate NoDup<T>(s: seq<T>) {
    forall i, j :: 0 <= i < j < |s| ==> s[i] != s[j]
  }
}
