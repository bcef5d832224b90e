/** Constants that several components share. */
module FrameworkConstants {

  const DEFAULT_PERMISSION_PRIVATE := "DEFAULT_PERMISSION_PRIVATE"

  // The milliseconds of an hour and of a day.
  const HOUR := 3_600_000
  const DAY := 86_400_000
}
