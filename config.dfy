/** The repository's default settings (config.py). */
module Config {

  /** The status codes matched when no match-codes spec is given. */
  const DefaultMatchCodes: string := "200-299,301,302,307,401,403,405,500"

  /** The directory reports are written to. */
  const ReportsDir: string := "reports"
}
