/**
 * The collaborators of the review engine, seen only at their boundary: the
 * console application with its registered commands, a command's run, and
 * the file searches the engine asks for.
 */
module Console {
  import opened OrderedMaps

  /** A registered command, seen through its definition: the names of the options it declares. */
  datatype Command = Command(options: set<string>)

  /** `$application->all()`: command name to command, in registration order. */
  type Registry = OrderedMap<string, Command>

  /** The options one invocation is given, `--name` to value (the array behind an `ArrayInput`). */
  type Args = OrderedMap<string, string>

  /** A batch of invocations, command name to its options, in execution order. */
  type Batch = OrderedMap<string, Args>

  /** What one `Command::run` gives back: its exit status and the text it wrote. */
  datatype Outcome = Outcome(status: int, text: string)

  /**
   * The console application: its registry, and what running a named command
   * with given options yields.
   */
  datatype Application = Application(all: Registry, run: (string, Args) -> Outcome)

  /**
   * The file searches the engine makes.
   * Descriptors(dir): real paths of the `*.info` files below `dir` outside
   * `contrib`/`contributed` directories, sorted by name.
   * Manifests(dir): real paths of the `*.make` files below `dir`, sorted by name.
   * Files(dir): every file below `dir` as its path relative to `dir`, sorted by name.
   */
  datatype Search = Descriptors(dir: string) | Manifests(dir: string) | Files(dir: string)

  /** The file system as far as the searches see it, and the working directory. */
  datatype Environment = Environment(find: Search -> seq<string>, cwd: string)
}
