/** `ControllableValue`: what a device does now, what it was told, and what is wanted. */
module Controllable {

  datatype ControllableValue<T(==)> = ControllableValue(current: T, target: T, desired: T, initialized: bool) {

    /** The value after `check`: the target follows the desired value. */
    function Checked(): ControllableValue<T> {
      this.(target := desired, initialized := true)
    }

    /** The result of `check`: whether the device must be told. */
    predicate NeedsUpdate() {
      target != desired || !initialized
    }
  }

  function Initial<T(==)>(value: T): ControllableValue<T> {
    ControllableValue(value, value, value, false)
  }
}
