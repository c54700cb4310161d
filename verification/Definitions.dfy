/**
 Which channel definitions a writer takes, whatever it is: those of a supported
 datatype and shape with a length field of two or four bytes, until there are 65535.
 */
module Definitions {
  import opened OsfTypes
  import opened StreamingSpec

  /** `def` is taken behind `n` channels. */
  predicate Takes(n: nat, def: ChannelDef) {
    (def.sov == 2 || def.sov == 4) && def.dataType != Unsupported && def.shapeSupported && n < 65535
  }

  /** The definitions that were taken, in order. */
  function Taken(defs: seq<ChannelDef>): (r: seq<ChannelDef>)
    ensures |r| <= 65535
  {
    if defs == [] then []
    else
      var (front, def) := (Taken(defs[..|defs| - 1]), defs[|defs| - 1]);
      if Takes(|front|, def) then front + [def] else front
  }
}
