module Numbers {
  function Abs(x: int): nat {
    if x < 0 then -x else x
  }
}
