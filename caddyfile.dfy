/**
 * The host server's configuration file, as its tokenizer hands it to a plugin.
 *
 * The tokenizer itself (cursor movement, nesting, line tracking) belongs to the
 * host. A plugin only sees, for each occurrence of its directive, the arguments
 * written on the directive's own line and then the lines of the block that
 * follows it, each line being a subdirective token and the arguments after it.
 */
module Caddyfile {

  /** One line inside a directive's block: the subdirective token and its arguments. */
  datatype Line = Line(key: string, args: seq<string>)

  /**
   * One occurrence of the directive: its name, the arguments written after the
   * name on the same line (before the opening brace), and the lines of its block.
   */
  datatype Block = Block(directive: string, args: seq<string>, lines: seq<Line>)
}
