/** Go scalars, pointers to scalars and slices, as every other module sees them. */
module Pointers {

  datatype Option<+T> = None | Some(value: T)

  datatype Result<+T, +E> = Ok(value: T) | Err(error: E)

  newtype int64 = x: int | -0x8000_0000_0000_0000 <= x < 0x8000_0000_0000_0000

  newtype int32 = x: int | -0x8000_0000 <= x < 0x8000_0000

  const MAX_INT32: int64 := 0x7FFF_FFFF
  const MIN_INT32: int64 := -0x8000_0000

  /**
   * The cell behind a Go `*T` whose target is a scalar; `null` is the nil pointer.
   * No modelled code writes through such a pointer once the cell is filled.
   */
  class Ref<T> {
    const v: T

    constructor (v: T)
      ensures this.v == v
    {
      this.v := v;
    }
  }

  /** The backing array of a Go slice, whose slots can be written; `null` is the nil slice. */
  class Slice<T> {
    var items: seq<T>

    constructor (items: seq<T>)
      ensures this.items == items
    {
      this.items := items;
    }
  }

  /** An object as a set, with nothing for nil. */
  ghost function Only(o: object?): set<object> {
    if o == null then {} else {o}
  }

  /** The heap cell a scalar pointer keeps alive. */
  ghost function Cell<T>(p: Ref?<T>): set<object> {
    if p == null then {} else {p}
  }

  /** What a scalar pointer means: nil, or the value it points to. */
  function Deref<T>(p: Ref?<T>): Option<T> {
    if p == null then None else Some(p.v)
  }

  /** A pointer to a new cell, or nil. */
  method NewRef<T>(o: Option<T>) returns (p: Ref?<T>)
    ensures Deref(p) == o
    ensures fresh(Cell(p))
  {
    p := null;
    if o.Some? {
      p := new Ref(o.value);
    }
  }

  /** The scalar case of every generated deep copy: nil stays nil, anything else moves to a new cell. */
  method CopyRef<T>(p: Ref?<T>) returns (q: Ref?<T>)
    ensures Deref(q) == Deref(p)
    ensures fresh(Cell(q))
  {
    q := p;
    if p != null {
      q := new Ref(p.v);
    }
  }
}
