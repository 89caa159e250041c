/** Modes of operation: valuations of the robot's string variables. */
module Modes {
  datatype Mode = Mode(values: map<string, string>) {
    predicate IsEmpty() { values == map[] }
  }

  const NO_MODE := Mode(map[])
}
