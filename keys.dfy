/** MonoGame `Keys`. A key is identified by its enum name, which is also
    what `ToString` returns for it. */
module Keys {

  type Key = string

  const A: Key := "A"
  const D: Key := "D"
  const W: Key := "W"
  const S: Key := "S"
  const Left: Key := "Left"
  const Right: Key := "Right"
  const Back: Key := "Back"
  const Space: Key := "Space"
  const LeftShift: Key := "LeftShift"
  const RightShift: Key := "RightShift"
}
