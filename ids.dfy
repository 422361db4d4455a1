/** Primary keys of the database tables the model refers to. */
module Ids {
  type CourseId = int
  type UserId = int
  type ReviewId = int
}
