/** Fixed names: the submission layout `submission/<user>/<run_id>/` and the
    drivers' default kernel boot parameter. */
module Layout {

  /** The directory that holds every submission. */
  const SubmissionRoot: string := "submission"

  const ManifestFile: string := "manifest.json"

  /** The directory of a run that holds its plots. */
  const EnergyDir: string := "energy"

  /** The four plots of a run, in their fixed order: power over time, total
      energy per node, current over time, smoothed voltage. */
  const PlotNames: seq<string> := [
    "power-over-time.png",
    "total-energy-per-node.png",
    "current-over-time.png",
    "smoothed-voltage.png"
  ]

  /** The `--bootparam` default: argparse's `append` action adds the given
      values after it, so it always comes first. */
  const DefaultBootParams: seq<string> := ["iommu=pt"]

  function BootParamArgs(given: seq<string>): seq<string>
  {
    DefaultBootParams + given
  }
}
