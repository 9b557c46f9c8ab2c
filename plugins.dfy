/**
 * The two concrete watcher kinds. Their checkers and alerts measure disk and
 * memory usage by system calls; the files that implement them are not part of
 * this model, so their types are opaque here and their behaviour is handed to
 * the watcher layer as a `Watcher.AlertImpl` value (see `Watcher.Plugins`).
 */
module DiskSpace {
  /** What the disk-space checker is built from. */
  type Configuration
  /** A disk-space checker instance. */
  type Checker
  /** One observation of disk usage. */
  type CheckResult
  /** One configured disk-space alert (a threshold and its message rule). */
  type Alert
}

module Memory {
  /** What the memory checker is built from. */
  type Configuration
  /** A memory checker instance. */
  type Checker
  /** One observation of memory usage. */
  type CheckResult
  /** One configured memory alert. */
  type Alert
}
