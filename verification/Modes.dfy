/** The operator's execution mode and the health the probes report. */
module Modes {
  datatype Mode = Enabled | DryRun | Disabled

  datatype Health = Healthy | PartialContent | ServiceUnavailable
}
