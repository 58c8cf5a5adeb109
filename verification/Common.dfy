/** Small vocabulary shared by every component of the model. */
module Common {

  datatype Option<+T> = None | Some(value: T)

  /** A text cut to at most `limit` characters, as a slice `text[:limit]` does. */
  function Clip(text: string, limit: nat): string {
    if |text| <= limit then text else text[..limit]
  }

  /** The column holds the text, or as much of it as the column is wide. */
  predicate Kept(column: string, text: string, width: nat) {
    column <= text && |column| == Min(|text|, width)
  }

  function ToSet<T>(items: seq<T>): set<T> {
    set x | x in items
  }

  function Min(a: int, b: int): int {
    if a <= b then a else b
  }

  function Max(a: int, b: int): int {
    if a >= b then a else b
  }

  predicate NoDuplicates<T(==)>(items: seq<T>) {
    forall i, j | 0 <= i < j < |items| :: items[i] != items[j]
  }

  /** Code-point order of texts: the order of `sorted` and of TEXT columns under the binary collation. */
  predicate TextLess(a: string, b: string) {
    b != [] && (a == [] || a[0] < b[0] || (a[0] == b[0] && TextLess(a[1..], b[1..])))
  }
}
