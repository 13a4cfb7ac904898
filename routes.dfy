/**
 * The application pages the middleware and the two forms send users to.
 */
module Routes {
  const LoginPage := "/auth/login"
  const HomePage := "/"
  /** The coordinator dashboard. */
  const CoordinatorHome := "/dashboard"
  /** The student area. */
  const StudentHome := "/estudante"
}
