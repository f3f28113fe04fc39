/** `min`, `max` and the reading of settings that use 0 for "not configured". */
module Numbers {
  function Min(a: int, b: int): int {
    if a < b then a else b
  }

  function Max(a: int, b: int): int {
    if a > b then a else b
  }

  function OrDefault(setting: int, default_: int): int {
    if setting == 0 then default_ else setting
  }
}
