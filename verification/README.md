# Verified models of MBDyn's controller, solver, integrators and post-processor

This project models four parts of the MBDyn sources in Dafny and proves what they are for:

- the **generalized predictive controller** of `utils/GPC.c`: the recursive least-squares identification of an ARX
  model, the prediction matrices that unroll the model over the horizon, the block accumulation that replaces the
  product of the response matrix with itself, and the control moves;
- the **packed U D U' solver** of `utils/udu.c`, with which the controller solves its system;
- the **DAE integrators** of `utils/dae-intg.cc`: the multistep, cubic and Radau II methods with their Newton loops
  and their rotating state buffers;
- the **signal and formula manager** of `contrib/Post/NCPost.py`: cascading deletion, renaming inside formulas, and
  the curve tables whose styles are kept by row number.

`dafny verify dfyconfig.toml` checks everything. A `double` is modelled as `real`. Code that works by overwriting
arrays, dictionaries or object fields is modelled by methods on arrays, maps and classes; each method is tied by its
contract to functions whose properties the lemmas state. Vectors and matrices of the specifications are functions on
indices (`Sums.dfy`, `LinearAlgebra.dfy`), and `MatOf` reads a two-dimensional array as such a function.

## What is proved

*Solver.* `udu_factor` is proved in place: with return value 0 the packed array holds U and D with U*D*U' equal to the
matrix it held before; with -(c+1) the columns after c factor the trailing block and column c holds the first Schur
pivot below 1e-7, and then no factors with every pivot at least 1e-7 in size exist. A pivot is a value of the quadratic
form, so a matrix bounded below by 1e-7 always factors, every pivot is at least the bound, and the pivots are positive
exactly when the matrix is positive definite. The three substitutions solve the factored system.

*Identification.* Over every run of `ARX_RLS` the covariance P stays symmetric positive definite and stays the inverse
of the information matrix mu*Q + phi*phi', and both divisors stay positive. Without forgetting the parameters satisfy
the normal equations and so are the unique minimiser of the squared prediction errors plus the initial penalty. With
forgetting the code divides the gain by 1+r but the covariance by r+mu, and the weighted normal equations then survive
a step exactly where there is nothing to correct; for every mu other than 1 there is a step that breaks them. The
regressors are windows of the recorded signals, so these errors are the residuals of the model equation that the
controller predicts with, and the identified model is the best one-step predictor of its size. The Kalman variant of
the identification, with its own layout of the parameters, predicts the same outputs.

*Control.* The matrices that `GPC_PredictionFunction` builds block by block, in reversed row order, predict every
trajectory of the ARX or ARMAX model. The accumulation of `GPC_Control` is the full product C'*C because C is causal
block Toeplitz; that of `GPC_Control2` is the full product exactly when the model is strictly proper. A penalty of at
least 1e-7 makes either system factor, and the moves then minimise squared tracking error plus penalty over all moves,
where the outcome of any moves is the model iterated forward from the stored windows; for a strictly proper model those
of `GPC_Control2` do so with the newest input u(t-1) free as well.

*Integration.* The Newton coefficients of `method_cubic` and `method_radau_II` are the derivatives of the update
formulas; one correction therefore makes an affine residual vanish. Every Newton iterate and every accepted step of
every run satisfies the discretization formulas, whatever the residual and the linear solver do. The formulas are exact
for polynomials up to the degree of each method, and runs reproduce such solutions. rho is the asymptotic radius; no
step of `method_cubic` amplifies a decaying or oscillating mode if and only if |rho| <= 1, and its update has order
four if and only if rho = 1. The predictor of `method_multistep` lacks the division by dt that the one of
`method_cubic` has, so it proposes dt times the extrapolated derivative; it is exact only for a unit step or where the
derivative vanishes.

*Post-processing.* The dependency loop ends within one more pass than there are expressions, with the least closed set,
whatever the order of the dictionary. A confirmed deletion removes exactly that set and exactly the curves that show
one of its names, from all tabs at once, and every surviving curve keeps its own style. A renaming of a word is a
renaming of tokens; it keeps the value of a formula exactly when both names are identifiers that Python does not
reserve and the new one is not captured, and it maps the transitive dependents of a set of signals exactly onto those
of the renamed set if and only if the old name is not among them or no formula outside them mentioned the new name. A
name with a period also matches, as a pattern, text that does not mention it.

## Model

| member | source | states |
|---|---|---|
| Udu.UduFactor | utils/udu.c:28-66 | In place: with result 0 the array holds a factorization of the matrix it held, with every pivot at least 1e-7 in size, of either sign; with -(c+1) the columns after c factor the trailing block, column c holds the Schur pivot, that pivot is below 1e-7, and the columns before c are untouched |
| Udu.Eliminate | utils/udu.c:54-60 | The elimination loop subtracts the part of U*D*U' that the later columns contribute to its entry, and changes no other entry |
| Udu.ExtendFactored | utils/udu.c:33-63 | If the columns after c factor the trailing block and column c is the Schur pivot with its quotients, the columns from c on factor the larger block |
| Udu.FactoredIsFactorization | utils/udu.c:23-26 | A packed array all of whose columns are factored satisfies U*D*U' = A at every pair of indices, in either order |
| Udu.IxInjective | utils/udu.c:10-21 | The packing index c(c+1)/2 + r gives every entry of the triangle its own place |
| UduDefinite.PivotIsAttained | utils/udu.c:37-46 | The Schur pivot of column c is the value x'Ax of some vector x with x_c = 1 |
| UduDefinite.NeverBailsOut | utils/udu.c:46-49 | If x'Ax >= bound*x'x for all x and the bound is at least 1e-7, no column can fail |
| UduDefinite.EveryPivotAboveBound | utils/udu.c:28-66 | Under such a bound every pivot is at least the bound |
| UduDefinite.PivotsDecideDefiniteness | utils/udu.c:46-51 | A factored matrix is positive definite if and only if all its pivots are positive (negative ones are allowed otherwise) |
| UduDefinite.FactorsUnique | utils/udu.c:23-26 | U and D are determined by the matrix |
| UduDefinite.FailureHasNone | utils/udu.c:28-66 | The call fails only for a matrix that has no factors U and D with every pivot at least 1e-7 in size, negative ones included |
| UduSolve.BackSubstitute | utils/udu.c:86-93 | The first sweep leaves in b the solution z of U*z = b |
| UduSolve.ScaleByDiagonal | utils/udu.c:95-98 | The second sweep leaves in b the solution of D*y = z |
| UduSolve.ForwardSubstitute | utils/udu.c:100-110 | The third sweep leaves in b the solution of U'*x = y |
| UduSolve.SweepsCompose | utils/udu.c:68-79 | Solutions of the three triangular and diagonal systems compose to a solution of U*D*U'*x = b |
| UduSolve.Solve | utils/udu.c:81-113 | With all pivots nonzero the call leaves in b the solution of U*D*U'*x = b, for every size, and does not touch b beyond it |
| LinearSystems.PackLowerTriangle | utils/udu.c:115-126 | The packed array is the symmetric matrix that the lower triangle of A determines |
| LinearSystems.LinearSystemV | utils/udu.c:128-140 | When the factorization succeeds x solves A*x = b, for A read from its lower triangle, and b ends up equal to x; it succeeds if and only if A has factors with every pivot at least 1e-7 in size, which a matrix bounded below by 1e-7 always has |
| LinearSystems.LinearSystemM | utils/udu.c:142-161 | When the factorization succeeds, on the same condition, every column of X solves the system for that column of B, with A and B unchanged |
| MatrixLibrary.MatrixVectorProd | libraries/libann/matrix.c:354-376 | r = A*x by running sums |
| MatrixLibrary.TransposeVectorProd | libraries/libann/matrix.c:379-405 | r = A'*x by running sums |
| MatrixLibrary.MatrixProd | libraries/libann/matrix.c:187-209 | r = A*B, entry by entry |
| MatrixLibrary.TransposeProd | libraries/libann/matrix.c:258-281 | r = A'*B, entry by entry |
| MatrixLibrary.ScalarProd | libraries/libann/matrix.c:310-330 | r = x.y by a running sum |
| MatrixLibrary.OuterProd | libraries/libann/matrix.c:333-351 | r = k*x*y' |
| MatrixLibrary.MatrixSum | libraries/libann/matrix.c:409-425 | r = A + k*B, also when r is one of the operands |
| MatrixLibrary.SubMatrixExtract | libraries/libann/matrix.c:656-671 | The small matrix becomes the block at the given place |
| MatrixLibrary.SubMatrixInsert | libraries/libann/matrix.c:674-690 | The block becomes the small matrix and no other entry changes |
| RlsTheory.LeftInverseStep | utils/GPC.c:298-300 | If P*Q = I before the covariance update, then P'*Q' = I after it, where Q' = mu*Q + phi*phi' |
| RlsTheory.RightInverseStep | utils/GPC.c:298-300 | The same for Q*P = I |
| RlsTheory.InverseDefinite | utils/GPC.c:298-300 | The inverse of a positive definite matrix is positive definite |
| RlsTheory.StepKeepsConsistent | utils/GPC.c:279-300 | With mu > 0 both divisors 1+r and r+mu are positive, and the update keeps P and Q symmetric positive definite and inverse to each other |
| LeastSquares.MomentStep | utils/GPC.c:276-296 | One parameter update changes theta*Q by y*phi' up to an explicit correction that carries the factor 1-mu |
| LeastSquares.WeightedNormalEquationsKept | utils/GPC.c:283-298 | The forgetting-factor normal equations survive a step if and only if mu = 1 or every prediction error meets a zero regressor entry: the gain uses 1/(1+r) and the covariance 1/(r+mu) |
| LeastSquares.ForgettingFails | utils/GPC.c:283-298 | For every mu other than 1 a step with P = Q = 1, theta = 0 and a unit regressor and output breaks them |
| LeastSquares.InformationIs | utils/GPC.c:298-300 | The information matrix in closed form: mu^N/delta*I plus the sum of mu^(N-1-k)*phi_k*phi_k' |
| LeastSquares.RunStep | utils/GPC.c:269-312 | A step of the pair (theta, P) takes the invariant for the data seen to the one for the data with the new sample |
| LeastSquares.RunInvariant | utils/GPC.c:269-312 | After any number of steps P is the symmetric positive definite inverse of mu-weighted I/delta + sum of phi*phi', and with mu = 1 theta satisfies the normal equations |
| LeastSquares.CostGap | utils/GPC.c:276-300 | The penalised sum of squared errors differs between any two parameter vectors by the quadratic form of the information matrix and a linear term in the normal equations |
| LeastSquares.ParametersMinimiseCost | utils/GPC.c:276-300 | With mu = 1 theta is the only minimiser of the squared prediction errors plus the delta-weighted initial penalty |
| Identification.RegressorPredicts | utils/GPC.c:624-737 | For ARX and ARMAX models theta*phi is the one-step prediction of the model whose coefficients are theta, from the outputs, inputs and errors recorded up to then, in the order of the regressor; with direct transmission the newest input of the window is the present one |
| Identification.ArmaxRegressorPredicts | utils/GPC.c:232-266 | In particular for the vector that ARMAX_UpdatePhi keeps, with its third window after the inputs |
| Identification.CostIsOneStepErrors | utils/GPC.c:269-312 | The cost that least squares minimises is the sum of the squared one-step errors over the recorded signals, plus the penalty |
| Arx.ArxModel.BestPredictor | utils/GPC.c:269-312 | Without forgetting, after any calls, no other model of the same size has a smaller such cost for the signals recorded |
| Arx.ArxModel.constructor | utils/GPC.c:16-49 | The initial model satisfies the invariant of all runs: P is the inverse of I/delta and the windows are empty |
| Arx.ArxModel.Update | utils/GPC.c:204-230 | The regressor takes in the newest output and input and the invariant is kept: every regressor processed before still is the window of its time |
| Arx.ArxModel.Rls | utils/GPC.c:269-312 | The in-place step is the covariance and parameter step of the specification, and keeps the invariant for the data with the new sample, whose regressor is the window of the signals recorded so far |
| Windows.ShiftKeepsWindow | utils/GPC.c:214-227 | A window that holds the last samples, shifted by one slot and with a sample in the first, holds the last samples of the longer history |
| Windows.ShiftUp | utils/GPC.c:214-219 | The descending in-place loop moves every slot up by one and changes nothing outside the window |
| Windows.UpdatePhi | utils/GPC.c:204-230 | The output and the input window hold the last na outputs and nb inputs |
| Windows.UpdatePhiArmax | utils/GPC.c:232-266 | So do the three windows of the ARMAX regressor |
| Windows.PushSample | utils/GPC.c:740-777 | So does each vector of the controller |
| ArxKalman.SysEq.constructor | utils/GPC.c:1833-1857 | The zero regressor matrix holds the empty history in every row |
| ArxKalman.SysEq.UpdateC | utils/GPC.c:1901-1925 | Every row i of the regressor matrix takes in the newest output and input in the columns of parameter row i |
| ArxKalman.X2Theta | utils/GPC.c:1951-1968 | Component j of row i of block k of the parameter vector arrives at column j of block k of row i of theta, for outputs and inputs |
| ArxKalman.ThetaEntries | utils/GPC.c:1951-1968 | theta(i, j+k*p) is x(j+i*p+k*p*p) and theta(i, p*n+j+k*m) is x(p*p*n+j+i*m+k*p*m) |
| ArxKalman.FilterPredictsAsArx | utils/GPC.c:1878-1883 | The regressor matrix times the parameter vector equals theta*phi for the same history: the two layouts describe the same model |
| PredictionTheory.ShiftOrigin | utils/GPC.c:644-664 | Seen from one step later, one sample of a channel is traded for the same sample passed through the model |
| PredictionTheory.PredictionStep | utils/GPC.c:636-724 | Moving the origin of a prediction one step back leaves its value unchanged, by the block recursions |
| PredictionTheory.Prediction | utils/GPC.c:636-724 | Every trajectory of the ARX/ARMAX model with no further noise satisfies the i-step-ahead formula of the block recursions, for every i |
| PredictionMatrices.MatricesPredict | utils/GPC.c:636-724 | Block row s-1-i of A*Yp + B*Up + D*Ep + C*Us is the output at t+i of every trajectory with that past and those planned inputs |
| Predictor.NextBlock | utils/GPC.c:644-664 | Each further block is the product of the previous row's first block with the first row plus the block to the right |
| Predictor.FillDiagonal | utils/GPC.c:720-722 | A response is stored on its whole block diagonal of C |
| Predictor.Predict | utils/GPC.c:624-724 | The four matrices hold the blocks of the recursions for every order, size and horizon, from a C that is zero below its diagonals |
| GramTheory.GramByRows | utils/GPC.c:927-968 | A block of C'*C is the sum over the block rows of products of its responses |
| GramTheory.RowsAreReceived | utils/GPC.c:927-968 | The accumulation visits the same products in the opposite order |
| GramTheory.AccumulatedIsGram | utils/GPC.c:927-968 | The accumulator is the full product C'*C whenever C is causal block Toeplitz |
| Gram.Accumulate | utils/GPC.c:927-968 | The nested block loops, on a matrix that starts at zero, reach the accumulated state of the specification |
| Controller.BuildSystem | utils/GPC.c:927-974 | The system matrix is K'*K + lambda*I, read from its lower triangle, for the causal block Toeplitz matrix K with the blocks that the accumulation reads; for GPC_Control K is C |
| Controller.FreeResidual | utils/GPC.c:976-991 | The vector is the desired output minus the part of the prediction that the moves cannot change |
| Controller.SolveControl | utils/GPC.c:924-1009 | The moves solve (K'*K + lambda*I)*Us = C'*residual, and the solve succeeds if lambda is at least 1e-7 |
| ControlTheory.RegularizedBounded | utils/GPC.c:971-1009 | C'*C + lambda*I is bounded below by lambda, so it always factors |
| ControlTheory.SolutionIsOptimal | utils/GPC.c:891-1013 | The solution is the only minimiser of the squared residual plus lambda times the squared moves |
| ControlTheory.ResidualIsTrackingError | utils/GPC.c:976-991 | The residual after the moves is the tracking error of the model's trajectory, output by output |
| ExtendedGram.ExtendedFromParts | utils/GPC.c:729-734 | C2 is C followed by the first block column of B |
| ExtendedGram.ExtendedGramExact | utils/GPC.c:1059-1100 | The accumulation of the second controller equals C2'*C2 if and only if the model is strictly proper |
| ExtendedGram.WithoutDirectIsAll | utils/GPC.c:1059-1100 | For a strictly proper model the matrix whose product is accumulated is C2 itself |
| ExtendedGram.SimplyProperExample | utils/GPC.c:1059-1100 | A model with direct transmission for which an entry is wrong, at every horizon |
| ExtendedGram.SameContribution | utils/GPC.c:729-734 | The second arrangement of the input columns contributes the same to the prediction |
| Gpc.GpcModel.constructor | utils/GPC.c:482-569 | The zero storage satisfies the invariant, with C zero below its diagonals and empty histories |
| Gpc.GpcModel.PredictionFunction | utils/GPC.c:624-737 | The matrices predict the model given by theta, and with Flag 1 the extended ones hold their blocks, also for nb = 1, where B2 has no columns |
| Gpc.GpcModel.VectorUpdate | utils/GPC.c:740-777 | The windows take in the newest samples |
| Gpc.GpcModel.VectorUpdate2 | utils/GPC.c:779-816 | The windows of the second controller take in the newest samples |
| Gpc.GpcModel.Control | utils/GPC.c:891-1013 | The moves solve the regularized system for the residual of the current windows; lambda >= 1e-7 guarantees it |
| Gpc.GpcModel.Control2 | utils/GPC.c:1016-1148 | The moves solve the regularized system of the first block row of C2 without its direct term, continued along the block diagonals, for any model; for a strictly proper one that is the system of C2; lambda >= 1e-7 guarantees it |
| Gpc.GpcModel.StoredResidual | utils/GPC.c:976-991 | The stored matrices predict the model, and the residual of the first controller is the one whose moves are optimal |
| Gpc.GpcModel.StoredPredicts | utils/GPC.c:624-737 | With Flag 1 the stored matrices predict the model in the second arrangement of the inputs, and the residual of the second controller is the one whose moves are optimal |
| Gpc.HistoryIsSignal | utils/GPC.c:740-777 | A window that holds a history holds the past of the signal it samples |
| Gpc.OptimalPlan | utils/GPC.c:891-1013 | Squared tracking error over the horizon plus penalty, measured on trajectories of the model, is smaller for the computed moves than for any other ones |
| ExtendedControl.ResidualIsTrackingError2 | utils/GPC.c:1109-1124 | With the shorter input window and the longer plan, whose last block is the newest input, the residual after the moves is again the tracking error of the model's trajectory |
| ExtendedControl.OptimalPlan2 | utils/GPC.c:1016-1148 | Moves that solve the system of the second controller have a smaller squared tracking error plus penalty than any other ones, over trajectories whose newest input u(t-1) is free as well |
| Simulation.OutcomeIsTrajectory | utils/GPC.c:636-724 | The model iterated forward from the stored windows is a trajectory, for every past and every inputs: the prediction theorems speak of something |
| Simulation.BestOutcome | utils/GPC.c:891-1013 | Among all moves those of GPC_Control have the smallest squared tracking error plus penalty when the model is iterated forward under them, and strictly so |
| Simulation.BestOutcome2 | utils/GPC.c:1016-1148 | The same for the system of the second controller, with u(t-1) among the moves |
| Simulation.BestMoves | utils/GPC.c:891-1013 | What GPC_Control leaves in Us beats all other moves, when the controller's model is iterated forward from its own windows |
| Simulation.BestMoves2 | utils/GPC.c:1016-1148 | So does what GPC_Control2 leaves in Us2, when it solves the system of C2 |
| DaeCoefficients.DerivativesAgree | utils/dae-intg.cc:398-444 | Each derivative function is the slope of its basis function, with the explicit second-order remainder |
| DaeCoefficients.HermiteExact | utils/dae-intg.cc:398-444 | The Hermite basis reproduces every cubic from its values and slopes at the two nodes |
| DaeCoefficients.MultistepOrder | utils/dae-intg.cc:498-507 | The order conditions up to two hold for every rho, and the third never does |
| DaeCoefficients.MultistepExact | utils/dae-intg.cc:498-507 | Samples of a polynomial satisfy the multistep formula if and only if its degree is at most two (or dt = 0) |
| DaeCoefficients.MultistepAsymptotics | utils/dae-intg.cc:498-507 | For infinitely stiff modes the characteristic polynomial is (x + rho)^2: rho is the asymptotic radius |
| DaeCoefficients.CubicPredictorExact | utils/dae-intg.cc:753-756 | The cubic predictor extrapolates the derivative of every cubic exactly |
| DaeCoefficients.MultistepPredictor | utils/dae-intg.cc:535-544 | The multistep predictor proposes dt times the extrapolated derivative, exact if and only if dt = 1 or the derivative vanishes |
| DaeCoefficients.MultistepPredictorExample | utils/dae-intg.cc:535-544 | For x(t) = t and a step of one half it proposes one half instead of one |
| TwoStageCoefficients.CubicAgrees | utils/dae-intg.cc:689-699 | For every rho but 0 and -1 the four Newton coefficients are the derivatives of the two update formulas, and the formulas are exact for straight lines |
| TwoStageCoefficients.RadauAgrees | utils/dae-intg.cc:966-979 | The same for the constants of the Radau II method |
| TwoStageCoefficients.CubicQuadrature | utils/dae-intg.cc:691-694 | The weights of the cubic method integrate parabolas exactly over the step |
| TwoStageCoefficients.RadauQuadrature | utils/dae-intg.cc:967-970 | So do those of the Radau II method |
| TwoStageCoefficients.StepExact | utils/dae-intg.cc:757 | Such weights make the update of the state exact for every polynomial of degree three |
| TwoStageCoefficients.CubicMidExact | utils/dae-intg.cc:758 | So is the intermediate state of the cubic method |
| TwoStageCoefficients.RadauMidExact | utils/dae-intg.cc:1038 | The intermediate state of the Radau II method is exact if and only if the degree is at most two (or dt = 0) |
| TwoStageCoefficients.CubicPredictsExactly | utils/dae-intg.cc:753-756 | The cubic predictor is exact at both stages for every polynomial of degree three |
| TwoStageCoefficients.RadauPredictsExactly | utils/dae-intg.cc:1033-1036 | The predictor of the Radau II method is exact, at either stage, if and only if the degree is at most two |
| TwoStageCoefficients.CubicAsymptotics | utils/dae-intg.cc:690-694 | For infinitely stiff modes a step multiplies the derivative by rho, and by nothing else |
| TwoStageCoefficients.RadauAsymptotics | utils/dae-intg.cc:967-974 | The Radau II method damps such modes in one step |
| TwoStageOrder.CubicOrder | utils/dae-intg.cc:757 | The update of the cubic method is exact for a polynomial of degree four if and only if rho = 1 (or the degree is at most three, or dt = 0) |
| TwoStageOrder.RadauOrder | utils/dae-intg.cc:1037 | That of the Radau II method never is, beyond degree three |
| TwoStageStability.StepIsQuotient | utils/dae-intg.cc:757-758 | A step on x' = growth*x, with a complex factor growth, multiplies the state by the quotient of two quadratic polynomials in growth*dt |
| TwoStageStability.CubicStable | utils/dae-intg.cc:757-758 | No step on a mode with a non-positive real part increases its absolute value, whatever the step size, if and only if -1 <= rho <= 1 |
| TwoStageStability.RadauStable | utils/dae-intg.cc:1037-1038 | No step of the Radau II method does |
| Integration.NewtonFindsFirst | utils/dae-intg.cc:549-591 | The loop returns the first iterate whose residual is below the tolerance, and fails exactly when none of the first maxiter+1 is |
| Integration.RunIsChain | utils/dae-intg.cc:530-600 | Every printed line is the step made of the two samples before it, at its own time; a run ends at the first time not before tf or at a step that does not converge |
| Integration.MultistepIterateOnFormula | utils/dae-intg.cc:533-590 | Every Newton iterate satisfies the multistep formula in terms of its derivative and the history |
| Integration.MultistepStepOnFormula | utils/dae-intg.cc:533-600 | So does every accepted step, and its printed test is the norm of func at that sample and is below the tolerance |
| Integration.MultistepStepIsFirst | utils/dae-intg.cc:549-591 | A step is the first of the prediction and its corrections, at most maxiter of them, for which that norm is below the tolerance; without one it fails |
| Integration.MultistepRunOnFormula | utils/dae-intg.cc:530-600 | So does every line of every run, in terms of the two lines before it, with the norm of func at the line as its test |
| TwoStageIntegration.PredictOnStages | utils/dae-intg.cc:726-765 | Either predictor satisfies both formulas |
| TwoStageIntegration.CorrectionOnStages | utils/dae-intg.cc:822-830 | A correction keeps both formulas, whatever the solution of the linear system is |
| TwoStageIntegration.IterateOnStages | utils/dae-intg.cc:726-831 | Every Newton iterate satisfies both formulas |
| TwoStageIntegration.TwoStageStepOnFormulas | utils/dae-intg.cc:726-831 | So does every accepted step of either method, and its test, below the tolerance, is the norm of one vector with func at the new time and after it func at t + z*dt |
| TwoStageIntegration.TwoStageStepIsFirst | utils/dae-intg.cc:768-831 | A step is the first of the prediction and its corrections, at most maxiter of them, for which that norm is below the tolerance; without one it fails |
| TwoStageIntegration.ResidualsBelow | utils/dae-intg.cc:780-790 | With a norm that bounds its entries, every entry of both residuals of an accepted step is below the tolerance |
| TwoStageIntegration.TwoStageRunOnFormulas | utils/dae-intg.cc:723-840 | So does every line of every run, for some intermediate sample |
| IntegrationExact.MultistepNewtonExact | utils/dae-intg.cc:572-590 | If the residual is affine, grad is minus its derivative and the solver solves the system of the matrix JP + dt*b0*J and the residual, one correction makes the residual vanish |
| IntegrationExact.TwoStageNewtonExact | utils/dae-intg.cc:796-830 | If the solver solves the system of the four blocks j00*dt*J0 + JP0, j0z*dt*J0, jz0*dt*Jz, jzz*dt*Jz + JPz and both residuals, one correction makes the affine residuals of both stages vanish |
| IntegrationExact.MultistepAffineConverges | utils/dae-intg.cc:549-591 | With one admitted iteration the loop then accepts the prediction or its first correction |
| IntegrationExact.TwoStageAffineConverges | utils/dae-intg.cc:768-831 | The same for both two-stage methods |
| IntegrationReproduces.CubicPredicts | utils/dae-intg.cc:747-764 | From exact history the prediction of the cubic method is exact at both stages for every polynomial of degree three |
| IntegrationReproduces.RadauPredicts | utils/dae-intg.cc:1027-1044 | That of the Radau II method is exact if and only if the degree is at most two |
| IntegrationReproduces.LinearPredicts | utils/dae-intg.cc:726-743 | The linear predictor is exact if and only if the solution is a straight line, for every intermediate time other than the two ends of the step |
| IntegrationReproduces.MultistepPredicts | utils/dae-intg.cc:533-547 | From exact history of polynomials of degree three the multistep method predicts, component by component, dt times their slopes and the states that its formula gives |
| IntegrationReproduces.RunReproduces | utils/dae-intg.cc:723-840 | From exact history a run on a problem with such a solution completes without a single correction and every line is on the solution |
| IntegrationReproduces.LinesReproduced | utils/dae-intg.cc:703-840 | From the initial state alone, either method with either predictor follows a straight-line solution |
| IntegrationReproduces.MultistepRunReproduces | utils/dae-intg.cc:530-600 | A multistep run whose accepted derivatives are exact reproduces every polynomial of degree two |
| IntegrationReproduces.TwoStageRunReproduces | utils/dae-intg.cc:723-840 | A two-stage run whose accepted derivatives are exact at both stages reproduces every polynomial of degree three |
| Integrator.Buffers.constructor | utils/dae-intg.cc:452-471 | Six different buffers, the initial state in the current ones and zero in the others |
| Integrator.Buffers.Begin | utils/dae-intg.cc:511-528 | The initial state becomes the last sample and the history goes straight back one step |
| Integrator.Buffers.BeginByAdding | utils/dae-intg.cc:986-1001 | The Radau II method adds the same history to buffers that it counts on being zero, and they then hold it |
| Integrator.Buffers.Flip | utils/dae-intg.cc:382-396 | The six buffers stay the same and pairwise distinct; the current sample becomes the last one, and the last one the one before it |
| Integrator.Buffers.PredictMultistep | utils/dae-intg.cc:533-547 | The loop leaves the prediction of the specification in the current buffers |
| Integrator.Buffers.CorrectMultistep | utils/dae-intg.cc:572-590 | The update loop applies one correction in place |
| Integrator.Buffers.SolveMultistep | utils/dae-intg.cc:549-591 | The loop in place computes the Newton iteration of the specification |
| Integrator.Buffers.RunMultistep | utils/dae-intg.cc:530-600 | The run prints the lines of the specification and leaves the last two accepted samples in the history buffers |
| Integrator.Buffers.PredictTwoStage | utils/dae-intg.cc:726-765 | The loops leave the prediction of both stages |
| Integrator.Buffers.CorrectStages | utils/dae-intg.cc:796-830 | The update loop applies one coupled correction in place |
| Integrator.Buffers.SolveStages | utils/dae-intg.cc:768-831 | The loop in place computes the Newton iteration of both stages |
| Integrator.Buffers.RunStages | utils/dae-intg.cc:723-840 | The run of either two-stage method prints the lines of the specification and leaves the last two accepted samples |
| Integrator.MethodMultistep | utils/dae-intg.cc:446-610 | The whole method from the initial state |
| Integrator.MethodCubic | utils/dae-intg.cc:622-849 | The whole method from the initial state, with either predictor |
| Integrator.MethodRadauII | utils/dae-intg.cc:899-1129 | The whole method from the initial state, with either predictor |
| Formulas.MentionsToken | contrib/Post/NCPost.py:834 | The word-boundary search finds a name made of word characters exactly when it is a token of the formula |
| Formulas.MentionSplits | contrib/Post/NCPost.py:834 | Whatever characters a name has, a formula mentions it exactly where it occurs and just one of the two neighbours at either end of it is a word character |
| Formulas.SubstituteRenames | contrib/Post/NCPost.py:102-103 | The word-boundary substitution on characters is a renaming of tokens and changes nothing else |
| Formulas.SubstituteMentions | contrib/Post/NCPost.py:102-103 | A rewritten formula no longer mentions the old name, mentions the new one where it mentioned either, and the others as before |
| Formulas.SubstituteChanges | contrib/Post/NCPost.py:103 | A renaming to a name that the formula does not mention changes it if and only if the old name, read as a pattern, matches somewhere |
| Formulas.PatternIsMention | contrib/Post/NCPost.py:103 | For a name without periods that is exactly where the formula mentions it |
| Formulas.PatternUpToPeriods | contrib/Post/NCPost.py:103 | As a pattern a name matches itself, and besides just the texts that are the name except for other characters, no line ends, at its periods |
| Formulas.RenameRewritesUnmentioned | contrib/Post/NCPost.py:103 | Renaming a.b rewrites a_b, which does not mention it |
| Formulas.SubstituteIsLeftToRight | contrib/Post/NCPost.py:103 | Up to the first match nothing changes, it is replaced, and the substitution goes on behind it |
| Formulas.NoMatchNoChange | contrib/Post/NCPost.py:103 | Without a match nothing changes |
| Formulas.IdentifierShape | contrib/Post/NCPost.py:106-113 | An identifier is a letter or an underscore, then letters, digits and underscores, and not a reserved word |
| Formulas.RenameKeepsMeaning | contrib/Post/NCPost.py:88-113 | A renaming keeps what a formula evaluates to, among the constants of the context, if and only if both names are identifiers, and not reserved words, where the old one is used and the new one was not used, except as a constant of the same value |
| Formulas.RenameToReserved | contrib/Post/NCPost.py:88-113 | Renaming x to lambda, which sanitizing lets through, changes x+1 |
| Formulas.RenameCaptures | contrib/Post/NCPost.py:88-113 | Renaming x to sin changes sin(x) |
| Dependencies.FindDependentExprs | contrib/Post/NCPost.py:824-838 | The loop, visiting the dictionary in any order, ends within one more pass than there are expressions and returns exactly the least set closed under mentioning |
| Dependencies.ClosureUnique | contrib/Post/NCPost.py:824-838 | There is one such set, so that the order cannot matter |
| Dependencies.ClosureIsDependents | contrib/Post/NCPost.py:824-838 | Its members are exactly the names with a chain of mentions down to a missing signal |
| Dependencies.ClosureRenamesExactly | contrib/Post/NCPost.py:88-104 | For words, a renaming to a new name maps the transitive dependents of any set of signals exactly onto those of the renamed set if and only if the old name is not among them or every formula that mentioned the new name is |
| Dependencies.ClosureRenames | contrib/Post/NCPost.py:88-104 | So it does whenever the new name is unused |
| Dependencies.RenameGainsDependent | contrib/Post/NCPost.py:88-104 | The failing input: with the one formula e = "y", renaming x to y makes e a dependent of what was x |
| SignalManager.SanitizedIsWord | contrib/Post/NCPost.py:91 | Sanitizing keeps the length and each character among a-z, A-Z, 0-9 and _, and puts _ for every other; so it makes a word of any non-empty name, is idempotent, and keeps exactly the names that are words |
| SignalManager.SignalManager.DeleteSignal | contrib/Post/NCPost.py:81-86 | The signal goes with its formula and its source; formulas and sources keep belonging to signals |
| SignalManager.SignalManager.RenameSignal | contrib/Post/NCPost.py:88-104 | Which of the four outcomes occurs; the name filed has the length of the one given, the same characters among a-z, A-Z, 0-9 and _, and _ elsewhere, and is not that of a signal; on success data, formula and source move to that name, no other entry moves, and every formula is rewritten, otherwise nothing changes; formulas and sources keep belonging to signals |
| Curves.NewRowMonotone | contrib/Post/NCPost.py:453-467 | Surviving rows keep their order and stay apart |
| Curves.KeptAt | contrib/Post/NCPost.py:461-467 | A surviving row r is found at r minus the number of deleted rows before it |
| Curves.StylesStayPaired | contrib/Post/NCPost.py:453-467 | Every surviving row has at its new number exactly the style it had, and none if it had none |
| Curves.StylesOneMore | contrib/Post/NCPost.py:453-459 | Dropping the style of one more row, before all those deleted, moves the styles as one deletion of the larger set would |
| Curves.Tab.RemoveStyleForRow | contrib/Post/NCPost.py:453-459 | The dictionary loses the style of the row, the later ones move down by one, and no two collide |
| Curves.Tab.DeleteSelectedCurves | contrib/Post/NCPost.py:461-467 | Table and styles after the descending deletions are those of deleting the whole selection at once |
| PostProcessor.KeptUnaffected | contrib/Post/NCPost.py:624-660 | Deleting the affected rows leaves exactly the curves that lack a box or show no removed name in either, in their order |
| PostProcessor.SurvivorsShowNothing | contrib/Post/NCPost.py:624-660 | So no row with both boxes that is left shows a removed name as its x or as its y |
| PostProcessor.PostProcessor.FindAffectedCurves | contrib/Post/NCPost.py:624-638 | The rows found are exactly those with both boxes whose x or y is removed |
| PostProcessor.PostProcessor.DeleteCurves | contrib/Post/NCPost.py:656-660 | Deleting rows in one descending order across all tabs deletes in each tab exactly its own rows |
| PostProcessor.PostProcessor.DeleteSignalWithDeps | contrib/Post/NCPost.py:605-665 | Removes exactly the signal, its transitive dependents and the curves of any of them; leaves no formula that mentions any of them and no row with both boxes that shows any of them; asks if and only if another signal is removed or such a row is there; a refusal changes nothing |
| PostProcessor.PostProcessor.DeleteTreeFile | contrib/Post/NCPost.py:864-929 | The same for all signals whose source is the file |

## Left out

- Floating-point rounding: all arithmetic is over the reals.
- The error codes for mismatched dimensions in libann: the matrix operations require matching sizes instead.
- The factor code that LinearSystemV and LinearSystemM ignore: the model returns it as `ok` and stops there, where the program goes on with the failed factors.
- The parameter `a` of udu_factor, which the program does not read.
- Udu.UduFactor: the pivots are compared with 1e-7 as reals; there is no claim about the size of U.
- LeastSquares.RunInvariant: with forgetting, theta has no normal equations to satisfy, as LeastSquares.WeightedNormalEquationsKept shows; the claim for theta is made for mu = 1.
- The robustness limit on the prediction errors in ARX_RLS is modelled with the coefficient 0 that the program assigns.
- Gpc.GpcModel.VectorUpdate2: nb is at least 2; for nb = 1 the unsigned loop bound m*(nb-2) of the program wraps around.
- The working storage of the controller (tmp_*) is local to the methods, and the block accumulations of the two controllers, which differ by an offset of one block column, are one method.
- ARMAX_ELS, ARMAX_RML, GPC_ControlW, the Kalman filters themselves, UpdateC_ARX2 and the canonical forms.
- method_cubic with rho = 0 or rho = -1, and method_multistep with rho = 3 or rho = -1: the coefficients divide by zero.
- A step size that is not positive: the time loop would not end.
- The functions of the problem module, the linear solver and the norm are parameters; the Newton matrix is a function of the gradients rather than a matrix filled in by loops; the initial line of the output is not part of the log.
- Module loading, option parsing, files, sockets, NetCDF and the Qt widgets; tables are sequences of rows, and a row holds the names selected in its boxes.
- The rebuilding of the selection boxes after data_changed: what a curve shows after a renaming is not modelled.
- Formulas.MentionsToken: word characters are the ASCII ones, where the program's searches also take letters of other alphabets; so for every other statement about formulas.
- Formulas.SubstituteRenames: for names of ASCII word characters; Formulas.SubstituteChanges says what a name with periods does.
- SignalManager.SignalManager.RenameSignal: the old name is not empty, and of the characters that are special in a pattern only the period is; the others are matched literally.
- Formulas.RenameKeepsMeaning: evaluation is any function of the tokens and of the values bound to identifiers; string literals, comments, attribute access, argument names such as `axis=`, names bound inside the formula, and a word after the period of a number such as 1.e5 are not told apart from names.
- PostProcessor.PostProcessor.DeleteTreeFile: the registration of the file and its entry in the tree are not modelled.
- Replacing the file of a signal and loading a session: the same deletion steps with file access in between.
