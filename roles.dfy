/** Enumerations shared by several views. */
module Roles {

  /** The three access roles of an account (`UserRole` in the source). */
  datatype UserRole = Admin | StafKeuangan | StafBiasa

  /** The `variant` values of the Badge component that the views choose between. */
  datatype BadgeVariant = Default | Secondary | Destructive | Outline
}
