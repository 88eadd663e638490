/** Small datatypes shared by the modules of the model, and how a call to the outside turns out. */
module Basics {
  datatype Option<+T> = None | Some(value: T)

  datatype Result<+T, +E> = Ok(value: T) | Err(error: E)

  /**
   How one call turns out: it works; it errors without effect; it takes effect but errors; the process
   dies before or after the effect; or, writing a file, it is cut off after creating it, with part of
   the contents or none in it, because the process dies (`Torn`) or the write errors (`Botched`).
   */
  datatype Fate = Fine | Fails | Lost | DiesBefore | DiesAfter | Torn(part: bool) | Botched(part: bool)

  type Fates = nat -> Fate

  predicate Takes(f: Fate) { f.Fine? || f.Lost? || f.DiesAfter? }

  predicate Dies(f: Fate) { f.DiesBefore? || f.DiesAfter? || f.Torn? }

  predicate Errs(f: Fate) { f.Fails? || f.Lost? || f.Botched? }

  predicate CutOff(f: Fate) { f.Torn? || f.Botched? }
}
