/**
 * The configuration a section is described by. Reading and validating the
 * configuration file is not part of this model; these are the values it
 * yields.
 */
module Config {
  /** How often a section's command is run: once, or every `duration` ticks. */
  datatype Interval = Oneshot | Seconds(duration: nat)

  datatype Section = Section(name: string, command: string, interval: Interval)
}
