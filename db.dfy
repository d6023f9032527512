/** The constants of the database manager (src/CMSx/DB.php) that the
    statement builder uses, and the error outcome that stands for
    `DB::ThrowError`, an exception carrying one of these codes. */
module Db {

  const ErrorNoConnectionAvailable := 10
  const ErrorNoConnection := 15
  const ErrorSelectByPairNoKey := 20
  const ErrorSelectByPairNoValue := 21
  const ErrorFulltextOnlyMyIsam := 31
  const ErrorQuery := 40
  const ErrorItemNoId := 51
  const ErrorItemLoadNotFound := 52

  /** Storage engines. */
  const TypeMyIsam := "MyISAM"
  const TypeInnoDb := "InnoDB"
  const TypeHeap := "HEAP"

  /** Foreign-key actions. */
  const ForeignRestrict := 1
  const ForeignCascade := 2
  const ForeignSetNull := 3

  /** What a configuring call that may throw comes back with. */
  datatype Outcome = Done | Raised(code: int)
}
