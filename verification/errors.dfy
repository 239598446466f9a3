/** The reasons the generator stops with exit status 1 before writing anything. */
module GeneratorErrors {
  datatype Error =
      /** No usable code in the `--languages` argument. */
    | NoLanguages
      /** `unknown` lists the requested codes the registry lacks, in request order;
          `available` is the registry's set of codes, reported alongside them. */
    | UnknownLanguages(unknown: seq<string>, available: set<string>)
}
