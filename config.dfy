/** The error texts the users handler sends (config/config.go). */
module Config {
  const ErrEmptyUserID := "Bad Request"
  const ErrInvalidUserID := "Bad Request"
  const ErrUserNotFound := "User Not Found"
  const ErrFetchingUser := "Internal Server Error"
  const ErrMarshallingUser := "Internal Server Error"
}
