/**
 * The namespace paths the supervisor uses (the constants of Paths, already
 * passed through Paths.build). The Paths class is not part of this model:
 * each path here is a symbolic one-segment placeholder named after its
 * constant, and all the model relies on is that they are distinct top-level
 * nodes, none below another.
 */
module XdPaths {
  import opened Coordination

  const ModuleDeployments: Path := ["MODULE_DEPLOYMENTS"]
  const StreamDeployments: Path := ["STREAM_DEPLOYMENTS"]
  const JobDeployments: Path := ["JOB_DEPLOYMENTS"]
  const Containers: Path := ["CONTAINERS"]
  const Streams: Path := ["STREAMS"]
  const Jobs: Path := ["JOBS"]
  /** The election path shared by every admin's LeaderSelector. */
  const Admin: Path := ["ADMIN"]

  /** The six paths requestLeadership ensures, in the order it ensures them. */
  const RequiredPaths: seq<Path> :=
    [ModuleDeployments, StreamDeployments, JobDeployments, Containers, Streams, Jobs]
}
