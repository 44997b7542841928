/** The persisted statuses and the overlap policies of schedules, shared by the executors, the repositories and the schedulers. */
module Statuses {
  datatype StepStatus = StepStarting | StepStarted | StepCompleted | StepFailed | StepStopped | StepUnknown

  datatype JobStatus = JobStarting | JobStarted | JobCompleted | JobFailed | JobStopping | JobStopped | JobAbandoned | JobUnknown

  datatype Overlap = Skip | Queue | Allow
}
