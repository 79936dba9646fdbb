/** The marker strings of lib/transit.rb. */
module Transit {
  /** Escape marker: first character of every directive and of every tag. */
  const ESC: string := "~"
  /** Sub marker: a string beginning with it is escaped as ESC + SUB. */
  const SUB: string := "^"
  /** Reserved marker: defined beside the others, never consulted by the decoder. */
  const RES: string := "`"
  /** Tag prefix: the structural tags are TAG followed by a name. */
  const TAG: string := "~#"
}
