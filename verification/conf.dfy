/**
 * The parts of the process-wide configuration that the core reads. Loading
 * and unmarshalling the XML file is not part of this model: the record is an
 * input to every operation that needs it.
 */
module Conf {

  datatype Config = Config(
    dumpPath: string,   // root directory of dump blobs (`<dump>`)
    symbolPath: string  // root directory of symbol files (`<symbol>`)
  )
}
