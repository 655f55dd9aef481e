/** The account roles of the application, as the back end declares them
    and the front end compares them. */
module Roles {

  datatype UserRole = SAO_ADMIN | CLUB_MANAGER | STUDENT
}
