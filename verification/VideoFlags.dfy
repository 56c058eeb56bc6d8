/** The flags in the headers of video packets. */
module VideoFlags {
  import opened SequenceNumbers

  const FLAG_CONTAINS_PIC_DATA := 1
  const FLAG_EOF := 2
  const FLAG_SOF := 4
  const FLAG_EXTENSION := 16

  predicate HasFlag(flags: U8, flag: nat)
    requires flag > 0
  {
    flags / flag % 2 == 1
  }
}
