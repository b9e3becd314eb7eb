# BE-LMS grading, progress and use-case rules in Dafny

This project is a Dafny model of the logic at the heart of the BE-LMS learning-management
back end. It covers:

- **The grading and progress engine.**
  - A learner's best attempt per quiz and practice.
  - The 0–10 kind scores and the 40/60 course total.
  - Letter grades, GPA steps, total and earned credits.
  - Progress percentages, the progress report's category, study time and score.
  - The backward day streak.
  - The overall progress fold.
- **Submission grading.**
  - Quiz scoring with its retake and attempt gate.
  - Practice test-case scoring with hidden tests masked, `executeCode` taken as an oracle.
  - The creation-time validation of both.
- **Enrolment and classroom rules.**
  - The admission gate and the enrolled counter.
  - The single and bulk add-by-email buckets, and student removal.
  - The owner/admin guards.
- **The user use cases.**
  - Profile update validation and payload, including the phone pattern.
  - The idempotent block and role updates.
  - Creation by an admin.
  - The User entity's predicates.
- **The section use cases and controller.**
  - Create's date and courseId checks.
  - The update whitelist.
  - The delete guard.
  - The controller's status and `dayOfWeek` checks, next to the stricter shared validator.
- **The home page's formatting and defaults.**
- **The upload service's string logic.**
  - The extension choice and the folder sanitising.
  - The local publicId and URL.
  - The local/remote decision.
- **The course use cases.**
  - The owner/admin guard and date coercion on update.
  - The owner-only delete.
  - The public read that hides private courses.

Mongo queries become functions over in-memory lists or maps, passed in as inputs. The
repositories become stores held in classes whose methods change them. Numbers are exact reals,
and `Math.round(x)` is `Floor(x + 1/2)`. Loops in the source become Dafny loops, each proved
equal to a specification function. The properties are proved about those functions.

Inputs that stand for I/O are:

- what `new Date(..)` denotes (`dateOf`, `parse`);
- the code runner's results;
- the upload's `randomUUID()`;
- the outcomes of disk and Cloudinary calls;
- the current day.

## Model

| member | source | states |
|---|---|---|
| GradeTable.LetterGrade | src/services/GradeService.ts:50-61 | '-' exactly for a null score; otherwise the letter of the first threshold the score reaches |
| GradeTable.ScoreToGpa | src/services/GradeService.ts:63-73 | the result is one of 0, 1.0, 1.5, …, 3.7, 4.0, lies in [0, 4], and is 4.0 exactly when the score is ≥ 9.0 |
| GradeTable.LetterOfMatchesTable | src/services/GradeService.ts:52-60 | the if-chain equals reading the threshold table from the top |
| GradeTable.ScoreToGpaMatchesTable | src/services/GradeService.ts:64-72 | the GPA if-chain equals reading the same table from the top |
| GradeTable.FirstStepReads | src/services/GradeService.ts:52-72 | the row the table reading picks, threshold by threshold |
| GradeTable.LetterGradeMonotone | src/services/GradeService.ts:50-61 | a higher score never yields a lower letter |
| GradeTable.ScoreToGpaMonotone | src/services/GradeService.ts:63-73 | a higher score never yields a lower GPA step |
| GradeTable.GpaMatchesLetter | src/services/GradeService.ts:50-73 | a score's GPA step is the one listed beside its letter (0 beside F) |
| BestAttempt.Best | src/services/GradeService.ts:107-111 | for one assessment, the highest percentage among the learner's attempts; None exactly when there is none |
| BestAttempt.BestBetween | src/services/GradeService.ts:107-111 | with stored percentages in [0, 100], so is the best one |
| BestAttempt.Attempted | src/services/ProgressService.ts:55-78 | the distinct ids of a list that the learner attempted (or passed), each once, never more than the list |
| BestAttempt.PassedAtMostAttempted | src/services/ProgressService.ts:55-78 | there are never more passed ids than attempted ids |
| BestAttempt.UnattemptedIgnored | src/services/GradeService.ts:107-113 | an assessment nobody attempted does not change the attempted list |
| BestAttempt.BestPercentages | src/services/GradeService.ts:107-112 | one best percentage per distinct attempted id, in the same order |
| BestAttempt.BestPercentagesBetween | src/services/GradeService.ts:107-112 | all best percentages lie in [0, 100] when the stored ones do |
| ScoreAggregator.ActiveWeight | src/services/GradeService.ts:139-140 | a kind's weight is 0 exactly when the course has no assessment of that kind |
| ScoreAggregator.AveragePercent | src/services/GradeService.ts:113-114 | the mean of the best percentages, null exactly when there are none, in [0, 100] when they are |
| ScoreAggregator.KindScore | src/services/GradeService.ts:105-117 | null exactly when nothing was attempted; otherwise a whole tenth within half a percent of the mean over 10; in [0, 10] |
| ScoreAggregator.Blend | src/services/GradeService.ts:136-145 | null exactly when the course has neither kind; one kind alone gives that kind's figure (0 when unattempted); both give 2/5 quiz plus 3/5 practice; range preserved |
| ScoreAggregator.CourseTotal | src/services/GradeService.ts:136-145 | null exactly without assessments; otherwise a whole tenth in [0, 10] |
| ScoreAggregator.RoundTenths | src/services/GradeService.ts:144 | the nearest tenth, within 1/20 of its argument |
| ScoreAggregator.RoundTenthsOfTenths | src/services/GradeService.ts:144 | rounding leaves a whole tenth unchanged |
| ScoreAggregator.QuizOnlyTotal | src/services/GradeService.ts:136-145 | with quizzes only, the total is the quiz score (0 when none attempted) |
| ScoreAggregator.PracticeOnlyTotal | src/services/GradeService.ts:136-145 | with practices only, the total is the practice score |
| ScoreAggregator.UnattemptedKindCountsZero | src/services/GradeService.ts:137-144 | a kind that exists but has no attempts keeps its weight and adds 0: a full quiz score with untouched practices totals 4.0 |
| ScoreAggregator.NoBestIffNoneAttempted | src/services/GradeService.ts:105-117 | there are no best percentages exactly when none of the ids was attempted |
| ScoreAggregator.ScoresForFacts | src/services/GradeService.ts:102-145 | each kind's score is null exactly when none of its assessments was attempted; the total is null exactly without assessments; a single kind's score is the total; all are on the 0–10 scale |
| ScoreAggregator.AssembleFacts | src/services/GradeService.ts:105-145 | the same facts stated on the best-percentage lists |
| Records.CreditsOf | src/services/GradeService.ts:100 | JavaScript's `credits or 3`: an absent or zero credit count reads 3, any other is kept, so the result is never 0 |
| Records.FindEnrolment | src/data/repositories/EnrollmentRepository.ts:21-24 | the first enrolment of the (learner, course) pair; None exactly when there is none |
| Records.BumpFacts | src/data/repositories/CourseRepository.ts:131-139 | only the course's enrolled counter moves, by exactly the delta; every other course is unchanged |
| Records.IdsOf | src/services/GradeService.ts:102-103 | the ids of exactly the course's assessments, never more than there are assessments |
| Records.Visits | src/services/GradeService.ts:85-97 | exactly the enrolments the loop processes, in order |
| Records.VisitsStep | src/services/GradeService.ts:95-97 | one more enrolment joins the visited list exactly when it is processed |
| GradeService.GradeOfFacts | src/services/GradeService.ts:96-167 | a course entry's total is null exactly without quizzes and practices; the grade is the total's letter; code and name are never empty; credits default to 3; scores lie in [0, 10] |
| GradeService.Grades | src/services/GradeService.ts:95-97 | one entry per visited enrolment, never more than there are enrolments |
| GradeService.GradesStep | src/services/GradeService.ts:95-167 | one more enrolment appends its course's entry exactly when it is visited |
| GradeService.Gpa | src/services/GradeService.ts:170-172 | 0 without credits; otherwise the GPA step of the credit-weighted mean, which the rounding to hundredths leaves unchanged; in [0, 4] |
| GradeService.EarnedAtMostTotal | src/services/GradeService.ts:147-156 | with non-negative credits, 0 ≤ earned credits ≤ total credits |
| GradeService.WeightedSumBetween | src/services/GradeService.ts:149-151 | the weighted sum lies between 0 and 10 × total credits |
| GradeService.EarnedAtMostTotalInStore | src/services/GradeService.ts:147-156 | over a learner's whole sheet, earned credits never exceed total credits |
| GradeService.AddEntry | src/services/GradeService.ts:147-156 | one entry adds its weighted total, its credits, and its credits again when earned (total ≥ 5) |
| GradeService.Tally | src/services/GradeService.ts:95-167 | the loop over the enrolments builds exactly the specified sheet and keeps its weighted sum, total credits and earned credits |
| GradeService.GetUserGrades | src/services/GradeService.ts:77-180 | an invalid userId is refused; otherwise the loop's sheet, total credits, earned credits and GPA equal their specification functions |
| ProgressReport.CategoryOf | src/services/GradeService.ts:274-276 | Excellent exactly at ≥ 80, Good exactly in [60, 80), Average exactly below 60 |
| ProgressReport.CategoryMonotone | src/services/GradeService.ts:274-276 | a higher weighted percentage never lands in a lower tier |
| ProgressReport.TallyOfFacts | src/services/GradeService.ts:207-268 | a course never shows more completed exercises than it has; it has a weighted percentage exactly when it has an exercise, in [0, 100] when stored percentages are |
| ProgressReport.ProgressPercent | src/services/GradeService.ts:270-272 | 0 without exercises; otherwise the rounded share of completed exercises; in [0, 100] when completed ≤ total; 100 when all are done |
| ProgressReport.StudyTime | src/services/GradeService.ts:278-280 | "Hh Mm" where H hours and M < 60 minutes make ten minutes per completed exercise |
| ProgressReport.TenthsOfPercent | src/services/GradeService.ts:291 | a whole tenth, in [0, 10] for a percentage in [0, 100] |
| ProgressReport.DetailOfFacts | src/services/GradeService.ts:270-292 | a course line's progress lies in [0, 100] and is 0 without exercises (category Average, score 0); lessons read are always 0; the score lies in [0, 10] |
| ProgressReport.DetailOfTally | src/services/GradeService.ts:270-292 | the same facts for any consistent tally |
| ProgressReport.Tallies | src/services/GradeService.ts:201-203 | one tally per visited enrolment |
| ProgressReport.Details | src/services/GradeService.ts:201-293 | one report line per visited enrolment |
| ProgressReport.CompletedAtMostExercises | src/services/GradeService.ts:231-232 | summed completed exercises never exceed summed exercises |
| ProgressReport.ScoreSumBetween | src/services/GradeService.ts:262-268 | the score sum lies in [0, 100 × score count] |
| ProgressReport.AverageScore | src/services/GradeService.ts:334 | 0 without scored courses; in [0, 10] when the sum is in range |
| ProgressReport.AverageScoreBetween | src/services/GradeService.ts:262-268 | with stored percentages in range, the report's average score lies in [0, 10] |
| ProgressReport.ExercisesCompletedAtMostTotal | src/services/GradeService.ts:228-232 | the report's completed exercise count never exceeds its total |
| ProgressReport.AddActiveDays | src/services/GradeService.ts:309-315 | adds exactly the recent submission days of the learner to the set |
| ProgressReport.StreakStart | src/services/GradeService.ts:318-322 | the count starts today when today is active, otherwise yesterday |
| ProgressReport.StreakUnique | src/services/GradeService.ts:324-327 | a run of active days from a start has exactly one length |
| ProgressReport.StreakBounded | src/services/GradeService.ts:298-327 | a run ending at the start among days no earlier than a bound is no longer than the days between |
| ProgressReport.Streak | src/services/GradeService.ts:317-327 | the count is the length of the run of consecutive active days ending at the start day |
| ProgressReport.ReportStreak | src/services/GradeService.ts:295-327 | the streak of the learner's recent active days, counted back from today or yesterday |
| ProgressReport.TalliesStep | src/services/GradeService.ts:201-203 | one more enrolment adds its course's tally exactly when it is visited |
| ProgressReport.DetailsStep | src/services/GradeService.ts:201-293 | one more enrolment adds its course's line exactly when it is visited |
| ProgressReport.AddTally | src/services/GradeService.ts:231-232 | one course adds its completed and total exercises, its weighted percentage and one to the count when it has exercises |
| ProgressReport.CourseLines | src/services/GradeService.ts:195-293 | the loop's lines and running sums equal their specification functions |
| ProgressReport.GetUserProgressReport | src/services/GradeService.ts:183-337 | an invalid userId is refused; otherwise lines, exercise ratio, average score and streak equal their specification functions and lessons completed is 0 |
| ProgressReport.ReportedStreakAtMost31 | src/services/GradeService.ts:298-327 | with only the last 30 days besides today active, the streak is at most 31, and 0 with no activity |
| ProgressService.KindOfOrdered | src/services/ProgressService.ts:55-87 | passed ≤ completed ≤ total for each kind |
| ProgressService.CourseProgressFacts | src/services/ProgressService.ts:32-115 | a malformed courseId is refused first, then a malformed userId; totals are the sums of the kinds; passed ≤ completed ≤ total; lessons completed is 0; the percentage is 0 without exercises, else the rounded share in [0, 100] |
| ProgressService.KeyIndex | src/services/ProgressService.ts:124 | the position of a key in the map, None exactly when it is absent |
| ProgressService.SetEntryFaithful | src/services/ProgressService.ts:124 | setting a computed summary keeps every entry that course's own summary and adds its key |
| ProgressService.ProgressMapFacts | src/services/ProgressService.ts:117-132 | the map holds exactly the courses whose computation succeeds, each with its own summary; repeated ids count once; a malformed learner id gives an empty map |
| ProgressService.ProgressMapStep | src/services/ProgressService.ts:121-128 | one more course id sets its summary when it succeeds and leaves the map unchanged when it fails |
| ProgressService.GetMultipleCoursesProgress | src/services/ProgressService.ts:117-132 | the loop builds the specified map |
| ProgressService.SumsInRange | src/services/ProgressService.ts:148-153 | in-range summaries fold to completed ≤ total and a percentage sum in [0, 100 × count] |
| ProgressService.MapSummariesInRange | src/services/ProgressService.ts:81-92 | every summary in the map has completed ≤ total and a percentage in [0, 100] |
| ProgressService.OverallInRange | src/services/ProgressService.ts:143-160 | the fold of in-range summaries has completed ≤ total and an average in [0, 100] |
| ProgressService.OverallFacts | src/services/ProgressService.ts:135-161 | each succeeding course counts once; completed ≤ total; the average lies in [0, 100] and is 0 without courses; a malformed learner id gives no courses |
| ProgressService.DistinctKeysCount | src/services/ProgressService.ts:148-152 | a map with distinct keys has as many keys as entries |
| ProgressService.GetUserOverallProgress | src/services/ProgressService.ts:141-160 | the loop's result equals the fold of the specified map |
| ClassroomManagement.CalculateGradeAgrees | src/presentation/controllers/ClassroomManagementController.ts:14-25 | the controller's own `calculateGrade` returns the grade service's letter on every input |
| ClassroomManagement.CalculateGrade | src/presentation/controllers/ClassroomManagementController.ts:14-25 | the controller's letter table; its agreement with the grade service is the row above |
| ClassroomManagement.Guard | src/presentation/controllers/ClassroomManagementController.ts:90-108 | the course lookup and owner/admin checks, as `GuardFacts` states |
| ClassroomManagement.GuardFacts | src/presentation/controllers/ClassroomManagementController.ts:90-108 | the request passes exactly for the owner or an admin of an existing course with a valid id; a non-owner non-admin gets 403 |
| ClassroomManagement.CheckAccess | src/presentation/controllers/ClassroomManagementController.ts:90-108 | the checks run in order give the guard's verdict |
| ClassroomManagement.Roll | src/presentation/controllers/ClassroomManagementController.ts:110-127 | exactly the approved enrolments of the course whose student resolves, in order |
| ClassroomManagement.RollStep | src/presentation/controllers/ClassroomManagementController.ts:125-127 | one more enrolment joins the roll exactly when it is approved, of the course and of a resolvable student |
| ClassroomManagement.RowFacts | src/presentation/controllers/ClassroomManagementController.ts:131-180 | a line's total is null exactly without quizzes and practices; its scores, total and grade are those of the learner's own grade sheet for the course; scores lie in [0, 10] |
| ClassroomManagement.RowOf | src/presentation/controllers/ClassroomManagementController.ts:131-180 | one gradebook line built from the learner's grade sheet, as `RowFacts` states |
| ClassroomManagement.Gradebook | src/presentation/controllers/ClassroomManagementController.ts:123-181 | one line per student on the roll |
| ClassroomManagement.GradebookStep | src/presentation/controllers/ClassroomManagementController.ts:125-181 | one more enrolment adds its line exactly when it is on the roll |
| ClassroomManagement.GradebookVisitsRoll | src/presentation/controllers/ClassroomManagementController.ts:110-127 | every line comes from an approved enrolment of the course whose student exists |
| ClassroomManagement.GetStudentGradesByCourse | src/presentation/controllers/ClassroomManagementController.ts:85-197 | the handler's loop gives the specified gradebook, and fails exactly when the guard fails |
| ClassroomManagement.StudentGrades | src/presentation/controllers/ClassroomManagementController.ts:85-197 | the handler's reply: the guard's error or the gradebook, as the method above computes |
| ClassroomManagement.AddByEmail | src/presentation/controllers/ClassroomManagementController.ts:200-270 | the single add by email, as `AddByEmailFacts` states |
| ClassroomManagement.AddByEmailFacts | src/presentation/controllers/ClassroomManagementController.ts:200-270 | a missing email is a 400; a failure changes nothing; an existing (student, course) enrolment is a 409; a success appends one approved enrolment of the student found by normalised email and adds 1 to the counter |
| ClassroomManagement.BulkRunStep | src/presentation/controllers/ClassroomManagementController.ts:311-343 | the bulk loop is one step per email, in order |
| ClassroomManagement.BulkStep | src/presentation/controllers/ClassroomManagementController.ts:311-343 | one email of the bulk loop, with `throws` standing for a store call that fails inside the try block, as `BulkStepFacts` states |
| ClassroomManagement.BulkRun | src/presentation/controllers/ClassroomManagementController.ts:311-343 | the bulk loop over the emails, the positions in `failing` being those whose store calls fail |
| ClassroomManagement.FailedAt | src/presentation/controllers/ClassroomManagementController.ts:315-342 | the normalised non-empty emails at failing positions, in order: what the catch block collects |
| ClassroomManagement.FailedAtNone | src/presentation/controllers/ClassroomManagementController.ts:315-342 | without failing store calls the `failed` bucket is empty |
| ClassroomManagement.BulkStepFacts | src/presentation/controllers/ClassroomManagementController.ts:311-343 | one email is filed once under its normalised form; a store failure files it under `failed` and changes nothing; otherwise at most the one enrolment of a success is appended |
| ClassroomManagement.NewRowsApprovedTrans | src/presentation/controllers/ClassroomManagementController.ts:332-337 | appended approved enrolments compose over steps |
| ClassroomManagement.BulkPartition | src/presentation/controllers/ClassroomManagementController.ts:311-343 | every non-empty normalised email lands in exactly one of the four buckets; `failed` holds exactly the emails whose store calls failed, in order; one approved enrolment is appended per success |
| ClassroomManagement.BulkRepeatIsAlreadyEnrolled | src/presentation/controllers/ClassroomManagementController.ts:322-330 | a repeated found email in the same batch lands in `alreadyEnrolled` and changes nothing else |
| ClassroomManagement.AddBulkRefusals | src/presentation/controllers/ClassroomManagementController.ts:273-302 | a missing or empty list is a 400 before the course guard; any refusal changes neither the courses nor the enrolments |
| ClassroomManagement.AddBulk | src/presentation/controllers/ClassroomManagementController.ts:273-358 | the bulk add handler, as `AddBulkRefusals` and `AddBulkSuccess` state |
| ClassroomManagement.AddBulkSuccess | src/presentation/controllers/ClassroomManagementController.ts:273-358 | success raises the counter by exactly the number of successes, only when positive, and leaves other courses alone; one approved enrolment per success; `failed` is exactly the emails at failing positions; every email filed in exactly one bucket |
| ClassroomManagement.RemoveFacts | src/presentation/controllers/ClassroomManagementController.ts:361-400 | invalid ids are a 400; the counter drops by 1 exactly when the first enrolment of the pair was deleted, others kept in order; otherwise nothing changes |
| ClassroomManagement.Remove | src/presentation/controllers/ClassroomManagementController.ts:361-400 | the removal handler, as `RemoveFacts` states |
| ClassroomManagement.Classroom.constructor | src/presentation/controllers/ClassroomManagementController.ts:27 | the store starts with the given courses, enrolments and users |
| ClassroomManagement.Classroom.AddStudentByEmail | src/presentation/controllers/ClassroomManagementController.ts:200-270 | the result and the new store are those of the single-add specification |
| ClassroomManagement.Classroom.AddStudentsBulk | src/presentation/controllers/ClassroomManagementController.ts:273-358 | the result, including the `failed` bucket for the emails whose store calls fail, and the new store are those of the bulk-add specification |
| ClassroomManagement.Classroom.RemoveStudent | src/presentation/controllers/ClassroomManagementController.ts:361-400 | the result and the new store are those of the removal specification |
| EnrollCourse.CountAppend | src/data/repositories/EnrollmentRepository.ts:43-45 | appending an enrolment raises the course's count by one exactly when it is of that course |
| EnrollCourse.EnrolGuards | src/domain/usecases/enrollment/EnrollCourse.usecase.ts:19-39 | unknown course, then archived (even for an enrolled learner), then an existing enrolment returned unchanged, then a full course; refusals change nothing |
| EnrollCourse.EnrolSuccess | src/domain/usecases/enrollment/EnrollCourse.usecase.ts:33-46 | a new enrolment appends one row with the section, raises the counter by one as the result shows, and keeps a positive capacity |
| EnrollCourse.EnrolKeepsPairsUnique | src/domain/usecases/enrollment/EnrollCourse.usecase.ts:28-41 | enrolling keeps (learner, course) pairs unique |
| EnrollCourse.Enrol | src/domain/usecases/enrollment/EnrollCourse.usecase.ts:19-47 | the admission rule, as `EnrolGuards` and `EnrolSuccess` state |
| EnrollCourse.EnrolmentStore.constructor | src/domain/usecases/enrollment/EnrollCourse.usecase.ts:14-17 | the store starts with the given courses and enrolments |
| EnrollCourse.EnrolmentStore.Execute | src/domain/usecases/enrollment/EnrollCourse.usecase.ts:19-47 | the result and new store are those of the admission specification |
| Users.User.DisplayName | src/domain/entities/User.entity.ts:69-71 | the full name when present; otherwise the email's part before its first '@' |
| Users.FindById | src/data/repositories/UserRepository.ts:28-31 | the first stored user with the id; None exactly when there is none |
| Users.FindByEmail | src/data/repositories/UserRepository.ts:33-36 | the first stored user with exactly that email; None exactly when there is none |
| Users.NewUserDefaults | src/domain/entities/User.entity.ts:36-51 | a fresh user is an active, unverified, unblocked student with an incomplete profile, shown by its email's local part |
| Users.ExactlyOneRole | src/domain/entities/User.entity.ts:53-63 | every user has exactly one of the three roles |
| Users.CompleteProfileShowsFullName | src/domain/entities/User.entity.ts:65-71 | a complete profile always shows its full name |
| Users.SafeRoundTrip | src/domain/entities/User.entity.ts:73-76 | the safe view loses only the hash: restoring it gives the user back |
| Users.SafeViewIgnoresOnlyHash | src/domain/entities/User.entity.ts:73-76 | two users share a safe view exactly when they differ at most in their hashes |
| Text.Utf16Length | src/domain/usecases/user/UpdateUserProfile.usecase.ts:51 | JavaScript's `length`: the number of UTF-16 code units, one per character below U+10000 and two above, so between the character count and twice it |
| Text.Utf16LengthAppend | src/domain/usecases/user/UpdateUserProfile.usecase.ts:56 | the code-unit length of a concatenation is the sum of the lengths |
| Text.Utf16LengthBasic | src/domain/usecases/user/UpdateUserProfile.usecase.ts:51 | the code-unit length equals the character count exactly when no character lies above U+FFFF |
| Text.Utf16LengthAstral | src/domain/usecases/user/CreateUserByAdmin.usecase.ts:28 | the code-unit length is twice the character count exactly when every character lies above U+FFFF |
| UserAdmin.BlockUpdateFacts | src/domain/usecases/user/UpdateUserBlockStatus.usecase.ts:12-35 | an empty id or unknown user is an error that changes nothing; otherwise the user comes back with the flag and nothing else changes |
| UserAdmin.BlockUpdateIdempotent | src/domain/usecases/user/UpdateUserBlockStatus.usecase.ts:22-24 | the flag already held changes nothing; asking twice is asking once |
| UserAdmin.BlockUpdate | src/domain/usecases/user/UpdateUserBlockStatus.usecase.ts:12-35 | the block update, as `BlockUpdateFacts` states |
| UserAdmin.FindByIdAfterUpdate | src/data/repositories/UserRepository.ts:71-95 | replacing a user by one with the same id keeps the lookup |
| UserAdmin.RoleUpdateFacts | src/domain/usecases/user/UpdateUserRole.usecase.ts:12-35 | the same for roles: errors change nothing, success changes only the role |
| UserAdmin.RoleUpdateIdempotent | src/domain/usecases/user/UpdateUserRole.usecase.ts:22-24 | an unchanged role writes nothing; a second identical request is a no-op |
| UserAdmin.RoleUpdate | src/domain/usecases/user/UpdateUserRole.usecase.ts:12-35 | the role update, as `RoleUpdateFacts` states |
| UserAdmin.PhoneForms | src/domain/usecases/user/UpdateUserProfile.usecase.ts:39 | each of the prefixes '0', '84' and '+84' before a subscriber number (a digit 1–9 and eight digits) gives a valid phone |
| UserAdmin.PhoneLength | src/domain/usecases/user/UpdateUserProfile.usecase.ts:39 | a valid phone has 10 to 12 characters |
| UserAdmin.PhoneExamples | src/domain/usecases/user/UpdateUserProfile.usecase.ts:39-42 | "0912345678" matches the pattern, "0012345678" does not |
| UserAdmin.PhoneShape | src/domain/usecases/user/UpdateUserProfile.usecase.ts:39 | every valid phone is one of the prefixes '0', '84' or '+84' followed by a subscriber number, so nothing else matches the pattern |
| UserAdmin.IsPhone | src/domain/usecases/user/UpdateUserProfile.usecase.ts:39 | the phone pattern; `PhoneForms` and `PhoneShape` state that it matches exactly the three prefixes before a subscriber number |
| UserAdmin.PatchHoldsOnlySupplied | src/domain/usecases/user/UpdateUserProfile.usecase.ts:60-71 | the payload holds exactly the supplied fields, the name trimmed, and no profile when no profile field was supplied |
| UserAdmin.ProfileUpdateFacts | src/domain/usecases/user/UpdateUserProfile.usecase.ts:19-81 | checks run in source order and errors write nothing; a taken phone is reported before a malformed one; name and bio limits count UTF-16 code units; only the user changes, with its name trimmed to 1–100 code units |
| UserAdmin.ProfileError | src/domain/usecases/user/UpdateUserProfile.usecase.ts:21-58 | the profile checks in source order, as `ProfileUpdateFacts` states |
| UserAdmin.ProfileUpdate | src/domain/usecases/user/UpdateUserProfile.usecase.ts:19-81 | the profile update, as `ProfileUpdateFacts` states |
| UserAdmin.AstralBioTooLong | src/domain/usecases/user/UpdateUserProfile.usecase.ts:56 | a bio of more than 250 characters outside the Basic Multilingual Plane exceeds 500 UTF-16 code units and is refused |
| UserAdmin.CreateUserFacts | src/domain/usecases/user/CreateUserByAdmin.usecase.ts:22-64 | errors write nothing: 400 for a missing email or a password under 6 UTF-16 code units, 409 for a taken email, then a taken phone; a created user is appended active, unverified, unblocked, under its normalised email, with a profile exactly when a phone or bio was given |
| UserAdmin.CreateFailure | src/domain/usecases/user/CreateUserByAdmin.usecase.ts:23-42 | the creation checks in source order, as `CreateUserFacts` states |
| UserAdmin.CreateByAdmin | src/domain/usecases/user/CreateUserByAdmin.usecase.ts:22-64 | the creation by an admin, as `CreateUserFacts` states |
| UserAdmin.EmojiPasswordLongEnough | src/domain/usecases/user/CreateUserByAdmin.usecase.ts:28 | a password of three emoji has six UTF-16 code units and is long enough |
| UserAdmin.LowerIdempotent | src/domain/usecases/user/CreateUserByAdmin.usecase.ts:23 | lower-casing twice is lower-casing once |
| UserAdmin.UserStore.constructor | src/data/repositories/UserRepository.ts:9-26 | the store starts with the given users |
| UserAdmin.UserStore.UpdateUserBlockStatus | src/domain/usecases/user/UpdateUserBlockStatus.usecase.ts:12-35 | the result and new store are those of the block specification |
| UserAdmin.UserStore.UpdateUserRole | src/domain/usecases/user/UpdateUserRole.usecase.ts:12-35 | the result and new store are those of the role specification |
| UserAdmin.UserStore.UpdateUserProfile | src/domain/usecases/user/UpdateUserProfile.usecase.ts:19-81 | the result and new store are those of the profile specification, with its length limits in UTF-16 code units |
| UserAdmin.UserStore.CreateUserByAdmin | src/domain/usecases/user/CreateUserByAdmin.usecase.ts:22-64 | the result and new store are those of the creation specification, with its password minimum in UTF-16 code units |
| QuizExercise.QuestionsErrorFacts | src/services/exercises/QuizExerciseService.ts:24-32 | the questions pass exactly when each has two options and a correct one; a failure is that of the first bad question |
| QuizExercise.ValidateQuestions | src/services/exercises/QuizExerciseService.ts:24-32 | the validation loop stops at the first bad question |
| QuizExercise.CreateQuizFacts | src/services/exercises/QuizExerciseService.ts:8-42 | a missing course id, an unknown course and an empty question list are refused in that order; a created quiz has an existing course, a question, and every question two options of which one is correct; defaults apply |
| QuizExercise.CreateResult | src/services/exercises/QuizExerciseService.ts:8-42 | quiz creation, as `CreateQuizFacts` states |
| QuizExercise.UpdateQuizFacts | src/services/exercises/QuizExerciseService.ts:108-140 | an accepted update keeps the id, moves the quiz only to an existing course, and leaves supplied questions valid; an empty patch changes nothing; applying a patch twice is applying it once |
| QuizExercise.UpdateQuizError | src/services/exercises/QuizExerciseService.ts:108-140 | the update checks, as `UpdateQuizFacts` states |
| QuizExercise.Patched | src/services/exercises/QuizExerciseService.ts:108-140 | the patched quiz, as `UpdateQuizFacts` states |
| QuizExercise.SanitiseFacts | src/services/exercises/QuizExerciseService.ts:78-106 | the student view keeps question id, text, points and option id and text in order, and hides which options are correct |
| QuizExercise.Sanitise | src/services/exercises/QuizExerciseService.ts:78-106 | the student view, as `SanitiseFacts` states |
| QuizExercise.FindAnswer | src/services/exercises/QuizExerciseService.ts:189 | the first answer to the question; None exactly when there is none |
| QuizExercise.FindOption | src/services/exercises/QuizExerciseService.ts:192 | the first option with the id; None exactly when there is none |
| QuizExercise.SumEarnedSnoc | src/services/exercises/QuizExerciseService.ts:195 | one more graded answer adds its earned points |
| QuizExercise.GradeQuestionFacts | src/services/exercises/QuizExerciseService.ts:189-203 | an answered question earns its points exactly when the chosen option is correct, otherwise 0; an unanswered question gives no entry |
| QuizExercise.GradeQuestion | src/services/exercises/QuizExerciseService.ts:189-203 | one question's grading, as `GradeQuestionFacts` states |
| QuizExercise.ScoreBetween | src/services/exercises/QuizExerciseService.ts:187-204 | with non-negative points the score lies between 0 and the total points |
| QuizExercise.Score | src/services/exercises/QuizExerciseService.ts:187-204 | the quiz score, as `ScoreBetween` states |
| QuizExercise.FindAnswerAppend | src/services/exercises/QuizExerciseService.ts:189 | an answer to an already answered question is never found |
| QuizExercise.ExtraAnswerIgnored | src/services/exercises/QuizExerciseService.ts:187-204 | answers to unknown questions and repeated answers change nothing |
| QuizExercise.GateFacts | src/services/exercises/QuizExerciseService.ts:175-181 | an attempt passes the gate exactly when retakes allow it and the maximum is not reached; it is then within the maximum |
| QuizExercise.Gate | src/services/exercises/QuizExerciseService.ts:175-181 | the retake and attempt gate, as `GateFacts` states |
| QuizExercise.SubmitFacts | src/services/exercises/QuizExerciseService.ts:152-226 | a recorded attempt passed exactly when its percentage reaches the passing score; the percentage is the score's share (0 for a quiz worth nothing) in [0, 100]; it is numbered one past the earlier attempts |
| QuizExercise.Submit | src/services/exercises/QuizExerciseService.ts:152-226 | quiz submission, as `SubmitFacts` states |
| QuizExercise.AttemptNumbering | src/services/exercises/QuizExerciseService.ts:170-173 | one more attempt of the pair raises the count by one |
| QuizExercise.GradedStep | src/services/exercises/QuizExerciseService.ts:187-204 | one more question adds its points to the total and its graded answer when answered |
| QuizExercise.GradeAll | src/services/exercises/QuizExerciseService.ts:183-204 | the loop's graded answers, score and total points equal their specification functions |
| QuizExercise.QuizStore.constructor | src/services/exercises/QuizExerciseService.ts:6 | the store starts with the given quizzes and attempts |
| QuizExercise.QuizStore.CreateQuiz | src/services/exercises/QuizExerciseService.ts:8-42 | the result is the creation specification's; success stores the quiz under its id, failure changes nothing |
| QuizExercise.QuizStore.UpdateQuiz | src/services/exercises/QuizExerciseService.ts:108-140 | refusals change nothing; an unknown id gives null; otherwise the stored quiz is patched |
| QuizExercise.QuizStore.GetQuizForStudent | src/services/exercises/QuizExerciseService.ts:69-106 | an invalid id is refused, an unknown one gives null, otherwise the sanitised quiz |
| QuizExercise.QuizStore.SubmitQuiz | src/services/exercises/QuizExerciseService.ts:152-226 | the result is the submission specification's; success appends the attempt, failure changes nothing |
| PracticeExercise.CreatePracticeFacts | src/services/exercises/PracticeExerciseService.ts:33-66 | course id, title, description, known course and a test case are checked in that order; a created practice has them all |
| PracticeExercise.CreateResult | src/services/exercises/PracticeExerciseService.ts:33-66 | practice creation, as `CreatePracticeFacts` states |
| PracticeExercise.VisibleAppend | src/services/exercises/PracticeExerciseService.ts:106 | filtering distributes over concatenation |
| PracticeExercise.VisibleOnlyShown | src/services/exercises/PracticeExerciseService.ts:106 | every test in the student view is a non-hidden test of the practice |
| PracticeExercise.VisibleKeepsShown | src/services/exercises/PracticeExerciseService.ts:106 | every non-hidden test of the practice is in the view |
| PracticeExercise.VisibleAllShown | src/services/exercises/PracticeExerciseService.ts:106 | a practice without hidden tests is shown whole |
| PracticeExercise.Visible | src/services/exercises/PracticeExerciseService.ts:106 | the non-hidden tests, as the three lemmas above state |
| PracticeExercise.ForStudent | src/services/exercises/PracticeExerciseService.ts:102-125 | the student view of a practice: only its visible tests |
| PracticeExercise.ResultOfFacts | src/services/exercises/PracticeExerciseService.ts:276-295 | a test passes exactly when its run has no error and the trimmed outputs match; it earns its points then and 0 otherwise; a hidden test shows '[Hidden]' input and expected output, and actual output only when it passed |
| PracticeExercise.ResultOf | src/services/exercises/PracticeExerciseService.ts:276-295 | one test's result, as `ResultOfFacts` states |
| PracticeExercise.Results | src/services/exercises/PracticeExerciseService.ts:265-296 | the results of all tests, as `ResultsAt` and `ResultsFacts` state |
| PracticeExercise.ResultsAt | src/services/exercises/PracticeExerciseService.ts:265-296 | one result per test case, in order, each its own run's |
| PracticeExercise.ResultsStep | src/services/exercises/PracticeExerciseService.ts:265-296 | one more test appends its result and adds its points to the total |
| PracticeExercise.SumsSnoc | src/services/exercises/PracticeExerciseService.ts:280-283 | one more result adds one pass when it passed and its earned points |
| PracticeExercise.PassedCountFacts | src/services/exercises/PracticeExerciseService.ts:280-283 | the passes number at most the results, and all of them exactly when each passed |
| PracticeExercise.EarnedBetween | src/services/exercises/PracticeExerciseService.ts:280-283 | results earning within their tests' points earn within the total, and the total when all points are earned |
| PracticeExercise.ResultsFacts | src/services/exercises/PracticeExerciseService.ts:265-296 | each result passes and earns as its own test and run decide |
| PracticeExercise.GradePasses | src/services/exercises/PracticeExerciseService.ts:265-299 | one result per test; all tests pass exactly when the passes number the tests |
| PracticeExercise.GradeScore | src/services/exercises/PracticeExerciseService.ts:265-298 | with non-negative points the score lies in [0, total] and reaches the total when every test passes |
| PracticeExercise.GradedPasses | src/services/exercises/PracticeExerciseService.ts:299-312 | a submission has one result per test and passed exactly when every test passed, so a practice with no tests is passed |
| PracticeExercise.GradedPercentage | src/services/exercises/PracticeExerciseService.ts:298 | the percentage is the score's share of the total points, 0 when the tests are worth nothing, in [0, 100], and 100 when every test passes |
| PracticeExercise.Graded | src/services/exercises/PracticeExerciseService.ts:241-318 | the graded submission, as `GradedPasses` and `GradedPercentage` state |
| PracticeExercise.Submit | src/services/exercises/PracticeExerciseService.ts:241-318 | refused exactly for an invalid practice or student id or an unknown practice |
| PracticeExercise.RunTests | src/services/exercises/PracticeExerciseService.ts:259-296 | the loop's results, passes, score and total points equal their specification functions |
| PracticeExercise.BestIndex | src/services/exercises/PracticeExerciseService.ts:331-334 | the student's submission with the highest percentage, the latest among equals; none exactly when the student has not submitted |
| PracticeExercise.PracticeStore.constructor | src/services/exercises/PracticeExerciseService.ts:32 | the store starts with the given practices and submissions |
| PracticeExercise.PracticeStore.CreatePractice | src/services/exercises/PracticeExerciseService.ts:33-66 | the result is the creation specification's; success stores it, failure changes nothing |
| PracticeExercise.PracticeStore.GetPracticeForStudent | src/services/exercises/PracticeExerciseService.ts:93-125 | an invalid id is refused, an unknown one gives null, otherwise the practice with only its visible tests |
| PracticeExercise.PracticeStore.SubmitPractice | src/services/exercises/PracticeExerciseService.ts:241-318 | the result is the submission specification's; success appends it, failure changes nothing |
| PracticeExercise.PracticeStore.GetStudentBestSubmission | src/services/exercises/PracticeExerciseService.ts:331-334 | the stored submission of the pair with the highest percentage, the latest among equals; none exactly without one |
| HomeService.FormatScheduleFacts | src/services/home/HomeService.ts:27-40 | an absent or empty schedule is 'TBD' in 'TBD' with no lessons; otherwise label and room come from the first item (weekday for 0..6, "Day N" otherwise, '??' for a missing time, 'TBD' for a missing room) and the lesson count is the schedule's length |
| HomeService.FormatScheduleFirstOnly | src/services/home/HomeService.ts:31-39 | items after the first change only the lesson count |
| HomeService.FormatSchedule | src/services/home/HomeService.ts:27-40 | the schedule summary, as `FormatScheduleFacts` states |
| HomeService.DayName | src/services/home/HomeService.ts:9-32 | the weekday label or "Day N", as `DayNameInjective` and `DayNamePrefix` state |
| HomeService.IntToStringInjective | src/services/home/HomeService.ts:32 | different day numbers render differently |
| HomeService.DayNameInjective | src/services/home/HomeService.ts:9-32 | different day indices give different day names |
| HomeService.DayNamePrefix | src/services/home/HomeService.ts:32 | exactly the indices outside 0..6 render with the prefix "Day " |
| HomeService.ValidatedDaysShifted | src/services/home/HomeService.ts:9-32 | with the section records' numbering 2 = Monday … 7 = Saturday, the home page shows day 2 as Tuesday, 6 as Saturday and 7 as "Day 7" |
| HomeService.DayNameFixed | src/services/home/HomeService.ts:9-32 | the day label read with the section records' numbering 2 = Monday … 7 = Saturday |
| HomeService.DayNameFixedFacts | src/services/home/HomeService.ts:9-32 | with that numbering, day 2 shows Monday, day 7 Saturday, and no day in 2..7 shows Sunday |
| HomeService.ToAssignmentStatusFacts | src/services/home/HomeService.ts:42-53 | in_progress maps to in-progress exactly; resolved, closed and completed to completed exactly; every other status to pending; a pending-counted ticket never shows completed |
| HomeService.ToAssignmentStatus | src/services/home/HomeService.ts:42-53 | the ticket status mapping, as `ToAssignmentStatusFacts` states |
| HomeService.MapTicket | src/services/home/HomeService.ts:138-146 | a ticket's summary, its status mapped by `toAssignmentStatus` |
| HomeService.MapNotification | src/services/home/HomeService.ts:148-155 | a notification's summary |
| HomeService.MapSectionFacts | src/services/home/HomeService.ts:118-136 | progress is the table value for the four statuses and 40 otherwise, in [0, 100]; the code falls back to the upper-cased first six letters of the name, then 'CLASS'; shown texts are never empty; the lesson count is the schedule length |
| HomeService.MapSection | src/services/home/HomeService.ts:118-136 | a section's summary, as `MapSectionFacts` states |
| HomeService.MapCourseFacts | src/services/home/HomeService.ts:157-174 | absent credits, enrolled and capacity become 3, 0 and 60 (a stored 0 credits stays 0); an absent or empty instructor, schedule or room becomes 'TBD'; code, name and status pass through |
| HomeService.MapCourse | src/services/home/HomeService.ts:157-174 | a course's summary, as `MapCourseFacts` states |
| HomeService.CountCompletedBound | src/services/home/HomeService.ts:185 | the completed count is at most the sections, and all of them exactly when every section is completed |
| HomeService.FiguresFacts | src/services/home/HomeService.ts:209-210 | without sections both figures are 0; otherwise progress is the rounded completed share in [0, 100], 100 when all are completed, and the average grade lies in [60, 100] |
| HomeService.FiguresMonotone | src/services/home/HomeService.ts:209-210 | more completed sections never lower either figure |
| HomeService.LearningProgress | src/services/home/HomeService.ts:209 | the learning progress figure, as `FiguresFacts` states |
| HomeService.AverageGradeValue | src/services/home/HomeService.ts:210 | the average grade figure, as `FiguresFacts` states |
| HomeService.Take | src/services/home/HomeService.ts:202 | the first n items, or all when there are fewer |
| HomeService.DashboardLists | src/services/home/HomeService.ts:176-227 | at most four classes, the first sections mapped in order; at most four tickets, mapped in order; at most four notifications; every public course mapped |
| HomeService.DashboardStats | src/services/home/HomeService.ts:176-227 | enrolled courses is the section total; pending assignments at most the tickets; learning progress in 0–100 and the average grade in 60–100, both 0 without sections |
| HomeService.GetDashboard | src/services/home/HomeService.ts:176-227 | the dashboard payload, as `DashboardLists` and `DashboardStats` state |
| HomeService.CountPendingBound | src/services/home/HomeService.ts:190 | the pending count is at most the tickets |
| ScheduleValidation.Message | src/shared/validation/schedule.validation.ts:7-19 | null exactly for a valid schedule, otherwise the error message |
| ScheduleValidation.AllValid | src/shared/validation/schedule.validation.ts:9-17 | a schedule passes exactly when each item passes |
| ScheduleValidation.FirstBad | src/shared/validation/schedule.validation.ts:9-17 | the first failing item decides the verdict |
| ScheduleValidation.ScheduleVerdictFacts | src/shared/validation/schedule.validation.ts:7-19 | a non-array passes, an empty array passes; an array passes exactly when every item's dayOfWeek is a number in [2, 7]; it throws only on a null or undefined item; a string day always fails |
| ScheduleValidation.FirstBadIndex | src/shared/validation/schedule.validation.ts:9-17 | a refused schedule has a first failing item, all before it passing |
| ScheduleValidation.ValidateScheduleDayOfWeek | src/shared/validation/schedule.validation.ts:7-19 | the loop with its flag and early return gives the specified verdict |
| Sections.CreateFacts | src/domain/usecases/section/CreateSection.usecase.ts:7-17 | a falsy courseId is refused first, then missing dates or an end not after the start; refusals store nothing; a success stores one record with the caller as teacher, status 'planned' and every other field unchanged |
| Sections.CreateError | src/domain/usecases/section/CreateSection.usecase.ts:7-17 | the creation checks, as `CreateFacts` states |
| Sections.Create | src/domain/usecases/section/CreateSection.usecase.ts:7-17 | section creation, as `CreateFacts` states |
| Sections.FilterFacts | src/domain/usecases/section/UpdateSection.usecase.ts:7-15 | the filtered update holds only defined `schedule` and `status` values, copied unchanged; `room` is dropped |
| Sections.Filter | src/domain/usecases/section/UpdateSection.usecase.ts:7-15 | the update whitelist, as `FilterFacts` states |
| Sections.UpdateFacts | src/data/repositories/SectionRepository.ts:24-26 | an unknown id changes nothing and gives null; a known one changes only that record's schedule and status where the update defines them |
| Sections.UpdateIdempotent | src/domain/usecases/section/UpdateSection.usecase.ts:7-15 | applying the same update twice leaves what applying it once did |
| Sections.Update | src/data/repositories/SectionRepository.ts:24-26 | the section update, as `UpdateFacts` states |
| Sections.CountPositive | src/data/repositories/SectionRepository.ts:33-35 | the count is positive exactly when some enrolment names the section |
| Sections.DeleteFacts | src/domain/usecases/section/DeleteSection.usecase.ts:6-11 | a section with enrolments is kept and the call throws; otherwise the result says whether it existed, and it is gone while every other section stays |
| Sections.Delete | src/domain/usecases/section/DeleteSection.usecase.ts:6-11 | the guarded deletion, as `DeleteFacts` states |
| Sections.SectionStore.constructor | src/data/repositories/SectionRepository.ts:5 | the store starts with the given sections and enrolments |
| Sections.SectionStore.CreateSection | src/domain/usecases/section/CreateSection.usecase.ts:7-17 | the result and new store are those of the creation specification; enrolments unchanged |
| Sections.SectionStore.UpdateSection | src/domain/usecases/section/UpdateSection.usecase.ts:7-15 | the result and new store are those of the update specification |
| Sections.SectionStore.DeleteSection | src/domain/usecases/section/DeleteSection.usecase.ts:6-11 | the result and new store are those of the deletion specification |
| Sections.FilterAllowed | src/domain/usecases/section/UpdateSection.usecase.ts:9-13 | the key-filter loop gives the specified filtered update |
| SectionController.AllDaysValid | src/presentation/controllers/SectionController.ts:75-87 | the handler's schedule passes exactly when each item passes |
| SectionController.FirstBadDay | src/presentation/controllers/SectionController.ts:75-87 | the first failing item decides |
| SectionController.DayCheckExtends | src/presentation/controllers/SectionController.ts:76-84 | the handler and the shared validator differ on an item only where the day is text naming Sunday, which the handler alone accepts |
| SectionController.DayCheck | src/presentation/controllers/SectionController.ts:76-84 | the handler's check of one day, as `DayCheckExtends` states |
| SectionController.ScheduleCheckSuperset | src/presentation/controllers/SectionController.ts:74-88 | every schedule the shared validator accepts the handler accepts, and `" CN "` shows the converse fails |
| SectionController.ScheduleCheck | src/presentation/controllers/SectionController.ts:74-88 | the handler's check of a schedule, as `AllDaysValid` and `ScheduleCheckSuperset` state |
| SectionController.SundayOnlyHandler | src/presentation/controllers/SectionController.ts:74-88 | a schedule whose one day is `" CN "` passes the handler's check and fails the shared validator |
| SectionController.CheckSchedule | src/presentation/controllers/SectionController.ts:74-88 | the handler's loop with its flag and early reply gives the specified verdict |
| SectionController.UpdateOutcomeFacts | src/presentation/controllers/SectionController.ts:63-95 | a status outside the four is a 400 first, then a bad day is a 400, neither changes anything; otherwise a 404 for an unknown id or a 200 with the updated record |
| SectionController.UpdateOutcome | src/presentation/controllers/SectionController.ts:63-95 | the update handler's reply, as `UpdateOutcomeFacts` states |
| SectionController.FindByCode | src/presentation/controllers/SectionController.ts:24 | the course with that code; None exactly when none has it |
| SectionController.CreateOutcomeFacts | src/presentation/controllers/SectionController.ts:12-36 | no user or no userId is a 401; the code is looked up only for a falsy courseId, an unknown code is a 400; nothing is stored unless the reply is a 201 |
| SectionController.CreateOutcome | src/presentation/controllers/SectionController.ts:12-36 | the create handler's reply, as `CreateOutcomeFacts` states |
| SectionController.DeleteOutcomeFacts | src/presentation/controllers/SectionController.ts:97-105 | a section with enrolments is a 400 that changes nothing; otherwise `{ success: true }`, even for a section that never existed |
| SectionController.DeleteOutcome | src/presentation/controllers/SectionController.ts:97-105 | the delete handler's reply, as `DeleteOutcomeFacts` states |
| SectionController.Create | src/presentation/controllers/SectionController.ts:12-36 | the reply and new store are those of the create specification |
| SectionController.Update | src/presentation/controllers/SectionController.ts:63-95 | the reply and new store are those of the update specification |
| SectionController.Delete | src/presentation/controllers/SectionController.ts:97-105 | the reply and new store are those of the delete specification |
| Cloudinary.Subtype | src/services/cloudinary.service.ts:47 | the mime type's second field, which holds no '/' |
| Cloudinary.SubtypeIsSecondField | src/services/cloudinary.service.ts:46-47 | for a mime type with a '/', the subtype is the second field of its split |
| Cloudinary.NameExtension | src/services/cloudinary.service.ts:54 | the name's extension without its dot, holding no '.' and no '/' |
| Cloudinary.ResolveExtension | src/services/cloudinary.service.ts:45-61 | the extension is never empty and holds no '/' |
| Cloudinary.ResolveExtensionFacts | src/services/cloudinary.service.ts:45-61 | a non-empty subtype decides ('jpeg' written 'jpg'); otherwise a non-empty name extension; otherwise 'jpg' |
| Cloudinary.StripSlashes | src/services/cloudinary.service.ts:68 | a suffix of its argument with no leading '/', the argument itself when it had none |
| Cloudinary.NoDotDotSuffix | src/services/cloudinary.service.ts:68 | a string without ".." keeps that on every suffix |
| Cloudinary.RemoveDotDot | src/services/cloudinary.service.ts:68 | the result has no "..", is no longer than the argument, and keeps a first character that is not '.' |
| Cloudinary.RemoveDotDotNoop | src/services/cloudinary.service.ts:68 | on a string without "..", the removal changes nothing |
| Cloudinary.RemoveDotDotIdempotent | src/services/cloudinary.service.ts:68 | removing twice is removing once |
| Cloudinary.NoDotDotPrefix | src/services/cloudinary.service.ts:68 | a string without ".." keeps that on every prefix |
| Cloudinary.NotParent | src/services/cloudinary.service.ts:68 | a string without ".." is not the segment `..` |
| Cloudinary.NoParentSegment | src/services/cloudinary.service.ts:68 | a string without ".." has no `..` path segment |
| Cloudinary.SafeFolder | src/services/cloudinary.service.ts:68 | the folder as written is never empty and holds no ".." |
| Cloudinary.SafeFolderFacts | src/services/cloudinary.service.ts:68 | no ".." segment survives and an emptied folder becomes 'posts' |
| Cloudinary.SafeFolderSlash | src/services/cloudinary.service.ts:68 | as written, `../x` becomes `/x` while `/x` becomes `x` |
| Cloudinary.SafeFolderFixed | src/services/cloudinary.service.ts:68 | the corrected folder is never empty, holds no "..", and never starts with '/' |
| Cloudinary.BackslashesFacts | src/services/cloudinary.service.ts:76 | turning backslashes into slashes keeps the length and every '.', and leaves no backslash |
| Cloudinary.TargetDirEscapes | src/services/cloudinary.service.ts:40-69 | as written, folder `../x` is written to `/x`, outside the upload root unless the root is `/x` |
| Cloudinary.TargetDir | src/services/cloudinary.service.ts:40-69 | the directory `ensureLocalDir` resolves for the sanitised folder, as written |
| Cloudinary.ResolveSlashX | src/services/cloudinary.service.ts:40 | `/x` resolves to itself |
| Cloudinary.TargetDirFixedInside | src/services/cloudinary.service.ts:40-69 | with the corrected sanitising, every folder resolves to the upload root or a directory under it |
| Cloudinary.TargetDirFixed | src/services/cloudinary.service.ts:40-69 | the directory resolved for the corrected folder, as `TargetDirFixedInside` states |
| Cloudinary.FileName | src/services/cloudinary.service.ts:71 | `<uuid>.<extension>`, as `FileNamePlain` states |
| Cloudinary.FileNamePlain | src/services/cloudinary.service.ts:71 | an upload's file name has no '/' and is not a segment `resolve` would drop or pop |
| Cloudinary.LocalPublicId | src/services/cloudinary.service.ts:76 | the local publicId is 'local/', the folder's kept segments, then the file name |
| Cloudinary.SaveToLocalFacts | src/services/cloudinary.service.ts:63-87 | as written: a local upload's publicId starts with 'local/' and is already normalised, its URL is the one `getOptimizedUrl` builds, width and height are 0, the format is the extension, the file is named in the resolved folder, and that folder is under the upload root when the sanitised folder does not start with '/' |
| Cloudinary.SaveInto | src/services/cloudinary.service.ts:70-87 | the saved file's path and the upload result for a directory and a sanitised folder |
| Cloudinary.SaveIntoFacts | src/services/cloudinary.service.ts:70-87 | for a non-empty folder without "..", the publicId starts with 'local/' and is normalised, its URL is the one `getOptimizedUrl` builds, width and height are 0, bytes and format match, and the file is named in the directory |
| Cloudinary.SaveToLocal | src/services/cloudinary.service.ts:63-87 | the local save as written, as `SaveToLocalFacts` and `SaveToLocalEscapes` state |
| Cloudinary.SaveToLocalEscapes | src/services/cloudinary.service.ts:63-87 | as written, folder `../x` writes the file to `/x/<uuid>.<ext>`, outside the upload root unless the root is `/x` |
| Cloudinary.SaveToLocalFixed | src/services/cloudinary.service.ts:63-87 | the local save with the corrected folder |
| Cloudinary.SaveToLocalFixedFacts | src/services/cloudinary.service.ts:63-87 | with the corrected folder, the publicId facts hold and the file is named in the upload root or a directory under it |
| Cloudinary.NormalizeLocalFacts | src/services/cloudinary.service.ts:90-91 | the result starts with 'local/'; an id already starting so is kept; normalising is idempotent; any other id keeps its text after the slashes |
| Cloudinary.NormalizeLocal | src/services/cloudinary.service.ts:90-91 | the local id normalisation, as `NormalizeLocalFacts` states |
| Cloudinary.OptimizedUrl | src/services/cloudinary.service.ts:230-249 | the local URL or the Cloudinary URL, under the same test as `deleteImage`, as `DeleteImageFacts` states |
| Cloudinary.NormalizedStart | src/services/cloudinary.service.ts:90-91 | the normalised id starts with 'local/' |
| Cloudinary.KeepsLocal | src/services/cloudinary.service.ts:91 | an id starting with 'local/' is its own normalisation |
| Cloudinary.DeleteImageFacts | src/services/cloudinary.service.ts:89-214 | an id goes to the disk exactly when Cloudinary is unconfigured or the id starts with 'local/', the same test the URL building makes; a missing file is no error, any other unlink failure is; remotely only a failed destroy is an error |
| Cloudinary.DeleteImage | src/services/cloudinary.service.ts:197-214 | the deletion, as `DeleteImageFacts` states |
| Cloudinary.UploadImageFacts | src/services/cloudinary.service.ts:107-169 | Cloudinary's result is returned exactly when configured and accepted; any other success is the local save as written; an error is the raw disk error only when Cloudinary is unconfigured |
| Cloudinary.UploadImage | src/services/cloudinary.service.ts:107-169 | the upload, as `UploadImageFacts` states |
| Courses.GetCourseByIdFacts | src/domain/usecases/course/GetCourseById.usecase.ts:6-21 | an unknown id is not found; an admin reads every course, anyone else exactly the courses they own; what is read is the stored record |
| Courses.GetCourseById | src/domain/usecases/course/GetCourseById.usecase.ts:6-21 | the guarded read, as `GetCourseByIdFacts` states |
| Courses.SanitizeFacts | src/domain/usecases/course/UpdateCourse.usecase.ts:21-27 | no key changes; `startDate` and `endDate` become dates exactly when they are non-empty strings; every other field passes unchanged |
| Courses.Sanitize | src/domain/usecases/course/UpdateCourse.usecase.ts:21-27 | the date coercion, as `SanitizeFacts` states |
| Courses.UpdateCourseFacts | src/domain/usecases/course/UpdateCourse.usecase.ts:7-31 | the guards are those of reading; a refusal changes nothing; an accepted update changes only that course, each named field taking its coerced value, and returns the stored record |
| Courses.UpdateCourse | src/domain/usecases/course/UpdateCourse.usecase.ts:7-31 | the guarded update, as `UpdateCourseFacts` states |
| Courses.DeleteCourseFacts | src/domain/usecases/course/DeleteCourse.usecase.ts:11-27 | only the owner deletes (an admin too is refused); a refusal changes nothing; the section guard never refuses; a deletion removes only that course |
| Courses.DeleteCourse | src/domain/usecases/course/DeleteCourse.usecase.ts:11-27 | the owner-only deletion, as `DeleteCourseFacts` states |
| Courses.GetPublicCourseByIdFacts | src/domain/usecases/course/GetPublicCourseById.usecase.ts:6-14 | the only error is not found, for a missing or private course; any other course is returned as stored |
| Courses.GetPublicCourseById | src/domain/usecases/course/GetPublicCourseById.usecase.ts:6-14 | the public read, as `GetPublicCourseByIdFacts` states |
| Courses.CourseStore.constructor | src/domain/usecases/course/GetCourseById.usecase.ts:4 | the store starts with the given courses |
| Courses.CourseStore.GetById | src/domain/usecases/course/GetCourseById.usecase.ts:6-21 | the result is the read specification's |
| Courses.CourseStore.Update | src/domain/usecases/course/UpdateCourse.usecase.ts:7-31 | the result and new store are those of the update specification |
| Courses.CourseStore.Delete | src/domain/usecases/course/DeleteCourse.usecase.ts:11-27 | the result and new store are those of the delete specification |
| Courses.CourseStore.GetPublicById | src/domain/usecases/course/GetPublicCourseById.usecase.ts:6-14 | the result is the public read specification's |

## Left out

- Mongo queries, `populate` and the aggregation pipelines: each becomes a function over in-memory lists or maps passed in (the best attempt is the maximum percentage per id, `distinct` is list membership without repeats).
- `mongoose.Types.ObjectId.isValid`: modelled as 24 hexadecimal characters or any 12-character string; the BSON library itself is not part of this model.
- Floating point: numbers are exact reals, so the IEEE behaviour of `0.4`/`0.6`, of the divisions and of `Math.round` on values just below a half is not captured. NaN and Infinity do not arise.
- Dates and clocks: calendar days are integers and the current day is an input, so the mix of local midnight and UTC `toISOString` days in the streak is not modelled. `new Date(..)` on stored values is an input function (`dateOf`, `parse`). `timeSpent` and execution times are not modelled.
- The code runner behind `executeCode` (an HTTP call) is an input that returns an output and an optional error per test input; it is taken to be deterministic.
- `Promise.all` fan-out in `getMultipleCoursesProgress`, `getDashboard`, `uploadMultipleImages` and `deleteMultipleImages` is modelled one call after another. The only observable effect modelled is that a failing course is dropped from the progress map; the insertion order of the map under concurrency is not.
- `resolveUserId`'s process-wide cached user id: the caller's identity is an input.
- bcrypt hashing: the password hash is an input to account creation.
- Zod DTO validation, mongoose schema validators and casting (`runValidators`), and timestamps are not modelled. The shape of a stored document is whatever the model's records hold.
- The enrolment schema declares no `status` field although the queries filter on it; the status is modelled as an attribute of the enrolment.
- Sequentially unreachable repository results are not modelled. These are an update returning null right after a successful lookup (`UpdateUserBlockStatus`, `UpdateUserRole`, `UpdateUserProfile`, `UpdateCourse`) and the `|| course` fallback after enrolling.
- Course-owner checks need a stored owner id; the JavaScript edge where a missing owner id equals a missing caller id (`undefined === undefined`) is not modelled.
- A request body's own `_id` overriding the store's new id in `createQuiz`, `createPractice` and `CreateSectionUsecase` is left out: ids are assigned by the store.
- The in-place writes of `CreateSectionUsecase` (on the caller's `data`), `SectionController.create` (on its copy of the body) and `UpdateCourseUseCase` (on its copy of the update) are modelled as values; the caller's object being changed is not modelled.
- `deleteQuiz`, `deletePractice`, `updatePractice`, the list queries and the submission listings with their sort orders are store pass-throughs and are left out. Where a sort order feeds a modelled operation (the newest tickets and notifications), the sorted list is an input.
- `getPublicCourses` is called by the home page and not modelled: its page of courses is an input. `mapCourse`'s pass-through of `description`, `tags` and `image` is not modelled.
- `PROGRESS_BY_STATUS[status]` on a status naming an `Object.prototype` member (such as `"toString"`) reads that member in JavaScript; the model treats every status outside the four as 40.
- NFC normalisation and full Unicode case mapping: upper- and lower-casing change the ASCII letters, and the day check also lower-cases the capitals `Ủ` and `Ậ`. A day word in decomposed (NFD) form is refused by the model, where the handler would normalise and accept it. Trimming removes the full ECMAScript white-space set.
- Cloudinary and the disk are outside the model: whether the upload was accepted, whether the local writes succeeded, and the unlink outcome are inputs. `randomUUID()` is an input too. The Cloudinary upload options and the `cloudinary.url` transformation URL are not modelled.
- `uploadMultipleImages` (its random public ids and fan-out) and `deleteMultipleImages` (a fan-out of `deleteImage`) are not modelled beyond the single-image operations.
- `deleteImage` does not confine the id it is given to the uploads directory: an id such as `local/../../x` reaches a path outside it. The model computes the disk path, but no lemma states the escape.
- Node's `path.resolve`, `path.join`, `path.posix.join` and `path.extname` are modelled on POSIX paths from their documented behaviour. The upload root and the working directory are taken to be absolute directories with at least one plain segment.
- `getStudentsByCourse` and the other controller handlers that only forward to a use case are not modelled.
- The bulk add's store failures are an input: `failing` names the positions whose `findOne` or `create` throws. A failure of the counter's `$inc` after the inserts (a 500 that keeps the new enrolments) is not modelled, and neither are list entries that are not strings (`rawEmail?.toString()`).
- The gradebook line drops `enrolledAt` and the reply's `meta` block; they hold no grading logic.
- `GetCourseById` and `GetPublicCourseById` return the stored course as read; the repository's fill of `instructor` from the populated owner (src/data/repositories/CourseRepository.ts:107-109) is not modelled.
- `mapSection`'s `name.slice(0, 6)` counts UTF-16 code units while the model takes six characters; they differ only for names with characters above U+FFFF. Lone surrogates cannot be written as Dafny characters, so they are not modelled.
- The dashboard keeps the source's day labels, with day 0 as Sunday; `DayNameFixed` gives the reading the section records' numbering calls for, but the dashboard is not rebuilt on it.
- The repository's lower-casing `findByEmail` is not used by the modelled code and is left out; the controllers' `findOne({ email })` matches the exact stored string, as `Users.FindByEmail` does.

## Findings

| source | as written | input that shows it | evidently intended | confidence | as-written member | corrected member |
|---|---|---|---|---|---|---|
| src/services/cloudinary.service.ts:68 | leading slashes are stripped before every ".." is removed, so removing ".." can leave a leading '/', and `path.resolve(LOCAL_UPLOAD_ROOT, "/x")` is `/x` | folder `../x` (the file goes to `/x/<uuid>.<ext>`) | the folder is always relative, so every local upload stays under the upload root | not executed; proved about the model | Cloudinary.SaveToLocalEscapes | Cloudinary.SaveToLocalFixedFacts |
| src/services/home/HomeService.ts:9-32 | `DAY_LABELS[dayOfWeek]` reads 0 as Sunday, while the section records number the days 2 = Monday … 7 = Saturday (src/models/Section.ts:4) | a schedule item with `dayOfWeek` 2, a Monday, is shown as "Tuesday"; day 7, a Saturday, as "Day 7" | each validated day is shown under its own name | not executed; proved about the model | HomeService.ValidatedDaysShifted | HomeService.DayNameFixedFacts |

`Cloudinary.SafeFolder`, `Cloudinary.TargetDir`, `Cloudinary.SaveToLocal` and `Cloudinary.UploadImage` model the upload as written. `Cloudinary.SafeFolderFixed` removes ".." first and then the leading slashes; `Cloudinary.TargetDirFixed` resolves that folder and `Cloudinary.SaveToLocalFixed` saves into it. `Cloudinary.TargetDirEscapes` and `Cloudinary.TargetDirFixedInside` state the same contrast for the directory alone.

`HomeService.FormatSchedule` keeps the source's reading of the day numbers; `HomeService.DayNameFixed` is the label the section records' numbering calls for.
