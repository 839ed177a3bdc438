/** The tool's fixed settings and names. */
module Constants {
  import opened Strings

  const DefaultRepoUrl: string := "https://github.com/zdpk-automation/agent-template.git"
  const DefaultBranch: string := "main"

  /** The cache lives in `~/.agent-template/cache`; `home` lists the components of the
      user's absolute home directory. */
  function DefaultCacheDir(home: seq<string>): string {
    "/" + Join(home + [".agent-template", "cache"], "/")
  }

  /** Seconds a template cache stays fresh: 24 hours. */
  const CacheUpdateInterval: int := 24 * 60 * 60

  /** The files that the tool keeps under `.agent/template` and links from the project root. */
  const ProtectedFiles: seq<string> := ["AGENT.md", "README.md", "CLAUDE.md", "GEMINI.md"]

  const AgentDir: string := ".agent"
  const TemplateDir: string := "template"
  const TemplateMetadataFile: string := "metadata.json"
}
